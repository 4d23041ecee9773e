/**
 The invoice's item table on paper: a writer with a cursor and a page number,
 rows that never straddle a page break, and columns sized to their figures.
 Lengths are exact millimetres; the document is the list of marks made on it.
 */
module Pages {
  import opened TextOps
  import opened Wrap

  const PAGE_W: real := 215.9
  const PAGE_H: real := 279.4
  const MARGIN_TOP: real := 25.4
  const MARGIN_BOTTOM: real := 25.4
  const MARGIN_LEFT: real := 19.05
  const MARGIN_RIGHT: real := 19.05
  const ROW_H: real := 5.0
  const CELL_PAD_Y: real := 1.8
  const ITEM_COL_PAD: real := 6.0
  const PRINTABLE_W: real := PAGE_W - MARGIN_LEFT - MARGIN_RIGHT
  const DESCRIPTION_MIN_FRACTION: real := 0.4
  const FONT_SIZE: Size := 10.0

  /** The band and the rule sit this far above the baseline cursor. */
  const BAND_RISE: real := 3.5

  /** The lowest the cursor may reach, and the height of a page between margins. */
  const LIMIT: real := PAGE_H - MARGIN_BOTTOM
  const BODY: real := LIMIT - MARGIN_TOP

  datatype Mark =
    | Text(page: nat, y: real, text: string)
    | Band(page: nat, top: real, bottom: real)
    | Rule(page: nat, y: real)

  datatype Align = Left | Right

  datatype Col = Col(width: real, align: Align)

  // ----- what a row consists of -----

  /** A pad on each side that faces a divider, none on the outer edges. */
  function Gutters(index: nat, count: nat): (real, real) {
    (if index == 0 then 0.0 else ITEM_COL_PAD, if index + 1 == count then 0.0 else ITEM_COL_PAD)
  }

  /** A figure is one token and is never broken; a description wraps. */
  function WrapCell(cols: seq<Col>, values: seq<string>, i: nat): (lines: seq<string>)
    requires i < |cols|
    ensures |lines| >= 1
  {
    if i >= |values| || values[i] == "" then [""]
    else if cols[i].align == Right then [values[i]]
    else
      var (left, right) := Gutters(i, |cols|);
      WrapLines(values[i], cols[i].width - left - right, FONT_SIZE)
  }

  function WrapItemCells(cols: seq<Col>, values: seq<string>): (wrapped: seq<seq<string>>)
    ensures |wrapped| == |cols|
  {
    seq(|cols|, i requires 0 <= i < |cols| => WrapCell(cols, values, i))
  }

  function WrapRows(cols: seq<Col>, rows: seq<seq<string>>): (wrapped: seq<seq<seq<string>>>)
    ensures |wrapped| == |rows|
  {
    seq(|rows|, i requires 0 <= i < |rows| => WrapItemCells(cols, rows[i]))
  }

  /** The tallest cell; one line when there are no cells at all. */
  function MaxLines(wrapped: seq<seq<string>>): (n: nat)
    ensures wrapped != [] ==> exists i :: 0 <= i < |wrapped| && n == |wrapped[i]|
    ensures forall i | 0 <= i < |wrapped| :: |wrapped[i]| <= n
    ensures wrapped == [] ==> n == 1
  {
    if wrapped == [] then 1
    else if |wrapped| == 1 then |wrapped[0]|
    else
      var n := MaxLines(wrapped[1..]);
      if n < |wrapped[0]| then |wrapped[0]| else n
  }

  function RowHeight(wrapped: seq<seq<string>>): (h: real)
    ensures h >= 2.0 * CELL_PAD_Y
  {
    MaxLines(wrapped) as real * ROW_H + 2.0 * CELL_PAD_Y
  }

  function LineMarks(page: nat, y: real, wrapped: seq<seq<string>>, line: nat): seq<Mark> {
    if wrapped == [] then []
    else
      var last := wrapped[|wrapped| - 1];
      LineMarks(page, y, wrapped[..|wrapped| - 1], line)
      + if line < |last| && last[line] != "" then [Text(page, y, last[line])] else []
  }

  function CellMarks(page: nat, y: real, wrapped: seq<seq<string>>, lines: nat): seq<Mark> {
    if lines == 0 then []
    else CellMarks(page, y, wrapped, lines - 1) + LineMarks(page, y + (lines - 1) as real * ROW_H, wrapped, lines - 1)
  }

  function RowMarks(page: nat, y: real, wrapped: seq<seq<string>>, shaded: bool): seq<Mark> {
    var top := y - BAND_RISE;
    var bottom := top + RowHeight(wrapped);
    (if shaded then [Band(page, top, bottom)] else [])
    + CellMarks(page, y + CELL_PAD_Y, wrapped, MaxLines(wrapped))
    + [Rule(page, bottom)]
  }

  // ----- where rows go -----

  datatype Cursor = Cursor(page: nat, y: real)

  function Room(at: Cursor, needed: real): Cursor {
    if at.y + needed > LIMIT then Cursor(at.page + 1, MARGIN_TOP) else at
  }

  function Below(at: Cursor, height: real): Cursor {
    Cursor(at.page, at.y + height)
  }

  /** The cursor after rows of these heights. */
  function After(at: Cursor, heights: seq<real>): Cursor {
    if heights == [] then at
    else
      var h := heights[|heights| - 1];
      Below(Room(After(at, heights[..|heights| - 1]), h), h)
  }

  /** Where row `i` begins. */
  function StartOf(at: Cursor, heights: seq<real>, i: nat): Cursor
    requires i < |heights|
  {
    Room(After(at, heights[..i]), heights[i])
  }

  function Heights(rows: seq<seq<seq<string>>>): (heights: seq<real>)
    ensures |heights| == |rows|
  {
    seq(|rows|, i requires 0 <= i < |rows| => RowHeight(rows[i]))
  }

  function RowShaded(index: nat): bool {
    index % 2 == 1
  }

  function TableMarks(at: Cursor, rows: seq<seq<seq<string>>>): seq<Mark> {
    if rows == [] then []
    else
      var n := |rows| - 1;
      var start := Room(After(at, Heights(rows[..n])), RowHeight(rows[n]));
      TableMarks(at, rows[..n]) + RowMarks(start.page, start.y, rows[n], RowShaded(n))
  }

  lemma NothingYet(at: Cursor)
    ensures After(at, Heights([])) == at && TableMarks(at, []) == []
  {
  }

  lemma TableGrows(at: Cursor, rows: seq<seq<seq<string>>>, n: nat)
    requires n < |rows|
    ensures var height := RowHeight(rows[n]);
            var start := Room(After(at, Heights(rows[..n])), height);
            && After(at, Heights(rows[..n + 1])) == Below(start, height)
            && TableMarks(at, rows[..n + 1])
                 == TableMarks(at, rows[..n]) + RowMarks(start.page, start.y, rows[n], RowShaded(n))
  {
    hide RowMarks, RowHeight, Room;
    assert rows[..n + 1][..n] == rows[..n];
    assert Heights(rows[..n + 1])[..n] == Heights(rows[..n]);
  }

  // ----- the writer -----

  class PdfWriter {
    var y: real
    var pageNo: nat
    var marks: seq<Mark>

    constructor ()
      ensures At() == Cursor(0, MARGIN_TOP) && marks == []
    {
      y, pageNo, marks := MARGIN_TOP, 0, [];
    }

    function At(): Cursor
      reads this
    {
      Cursor(pageNo, y)
    }

    method NewPage()
      modifies this`y, this`pageNo
      ensures At() == Cursor(old(pageNo) + 1, MARGIN_TOP)
    {
      y := MARGIN_TOP;
      pageNo := pageNo + 1;
    }

    method EnsureSpace(needed: real)
      modifies this`y, this`pageNo
      ensures At() == Room(old(At()), needed)
    {
      if y + needed > PAGE_H - MARGIN_BOTTOM {
        NewPage();
      }
    }

    method DrawLine(wrapped: seq<seq<string>>, line: nat)
      modifies this`marks
      ensures marks == old(marks) + LineMarks(pageNo, y, wrapped, line)
    {
      for col := 0 to |wrapped|
        invariant marks == old(marks) + LineMarks(pageNo, y, wrapped[..col], line)
      {
        assert wrapped[..col + 1][..col] == wrapped[..col];
        if line < |wrapped[col]| && wrapped[col][line] != "" {
          marks := marks + [Text(pageNo, y, wrapped[col][line])];
        }
      }
      assert wrapped[..|wrapped|] == wrapped;
    }

    method DrawItemCells(wrapped: seq<seq<string>>, maxLines: nat)
      modifies this`y, this`marks
      ensures marks == old(marks) + CellMarks(pageNo, old(y), wrapped, maxLines)
      ensures y == old(y) + maxLines as real * ROW_H
    {
      for line := 0 to maxLines
        invariant y == old(y) + line as real * ROW_H
        invariant marks == old(marks) + CellMarks(pageNo, old(y), wrapped, line)
      {
        DrawLine(wrapped, line);
        y := y + ROW_H;
      }
    }

    /** Space first, then the band, the cells and the rule: all on one page. */
    method ItemRow(cols: seq<Col>, values: seq<string>, shaded: bool)
      modifies this
      ensures var wrapped := WrapItemCells(cols, values);
              var start := Room(old(At()), RowHeight(wrapped));
              && At() == Below(start, RowHeight(wrapped))
              && marks == old(marks) + RowMarks(start.page, start.y, wrapped, shaded)
    {
      hide CellMarks, MaxLines, WrapItemCells;
      var wrapped := WrapItemCells(cols, values);
      var maxLines := MaxLines(wrapped);
      var rowHeight := maxLines as real * ROW_H + 2.0 * CELL_PAD_Y;
      EnsureSpace(rowHeight);
      var top := y - 3.5;
      if shaded {
        marks := marks + [Band(pageNo, top, top + rowHeight)];
      }
      y := y + CELL_PAD_Y;
      DrawItemCells(wrapped, maxLines);
      y := y + CELL_PAD_Y;
      marks := marks + [Rule(pageNo, top + rowHeight)];
    }

    /** The table's body: every other row shaded, counting from the second. */
    method ItemRows(cols: seq<Col>, rows: seq<seq<string>>)
      modifies this
      ensures At() == After(old(At()), Heights(WrapRows(cols, rows)))
      ensures marks == old(marks) + TableMarks(old(At()), WrapRows(cols, rows))
    {
      hide RowMarks, RowHeight, Room, WrapItemCells, TableMarks, After, Heights, Below;
      ghost var wrapped := WrapRows(cols, rows);
      NothingYet(At());
      for index := 0 to |rows|
        invariant At() == After(old(At()), Heights(wrapped[..index]))
        invariant marks == old(marks) + TableMarks(old(At()), wrapped[..index])
      {
        TableGrows(old(At()), wrapped, index);
        ItemRow(cols, rows[index], RowShaded(index));
      }
      assert wrapped[..|rows|] == wrapped;
    }
  }

  // ----- what is drawn -----

  /** A padded row of one line is 8.6 millimetres high, and a letter page holds 26. */
  lemma OneLineRow(cell: string)
    ensures RowHeight([[cell]]) == 8.6 && 26.0 * 8.6 <= BODY < 27.0 * 8.6
    ensures PRINTABLE_W == 177.8 && LIMIT == 254.0 && MARGIN_TOP == 25.4
    ensures DESCRIPTION_MIN_FRACTION == 0.4 && FONT_SIZE == 10.0
  {
  }

  lemma Shading(index: nat)
    ensures !RowShaded(0) && RowShaded(index + 1) == !RowShaded(index)
  {
  }

  /** A pad of six millimetres on each side that has a neighbour. */
  lemma GutterWidths(index: nat, count: nat)
    requires index < count
    ensures Gutters(index, count).0 == (if index > 0 then 6.0 else 0.0)
    ensures Gutters(index, count).1 == (if index < count - 1 then 6.0 else 0.0)
  {
  }

  /** A cell keeps its text: a figure whole, a description word by word; one with nothing
      in it has one blank line. */
  lemma CellKeepsText(cols: seq<Col>, values: seq<string>, i: nat)
    requires i < |cols|
    ensures i < |values| && values[i] != "" && cols[i].align == Right ==> WrapCell(cols, values, i) == [values[i]]
    ensures i < |values| && cols[i].align == Left ==> AllWords(WrapCell(cols, values, i)) == Words(values[i])
    ensures i >= |values| || values[i] == "" ==> WrapCell(cols, values, i) == [""]
  {
    OneBlankLine();
    if i < |values| && values[i] != "" {
      WrapKeepsWords(values[i], cols[i].width - Gutters(i, |cols|).0 - Gutters(i, |cols|).1, FONT_SIZE);
    }
  }

  /** The cells that print something on a line. */
  function Printing(wrapped: seq<seq<string>>, line: nat): set<nat> {
    set c | 0 <= c < |wrapped| && line < |wrapped[c]| && wrapped[c][line] != ""
  }

  lemma LastPrints(wrapped: seq<seq<string>>, line: nat)
    requires wrapped != []
    ensures var (n, last) := (|wrapped| - 1, wrapped[|wrapped| - 1]);
            && n !in Printing(wrapped[..n], line)
            && Printing(wrapped, line)
                 == Printing(wrapped[..n], line) + if line < |last| && last[line] != "" then {n} else {}
  {
  }

  lemma {:induction false} LineMarksCount(page: nat, y: real, wrapped: seq<seq<string>>, line: nat)
    ensures |LineMarks(page, y, wrapped, line)| == |Printing(wrapped, line)|
  {
    hide Printing;
    if wrapped == [] {
      assert Printing(wrapped, line) == {} by { NothingPrints(line); }
    } else {
      LineMarksCount(page, y, wrapped[..|wrapped| - 1], line);
      LastPrints(wrapped, line);
    }
  }

  lemma NothingPrints(line: nat)
    ensures Printing([], line) == {}
  {
  }

  lemma {:induction false} LineMarksAre(page: nat, y: real, wrapped: seq<seq<string>>, line: nat, m: Mark)
    ensures m in LineMarks(page, y, wrapped, line)
       <==> exists c :: c in Printing(wrapped, line) && m == Text(page, y, wrapped[c][line])
  {
    if wrapped != [] {
      var n := |wrapped| - 1;
      LineMarksAre(page, y, wrapped[..n], line, m);
      if c :| c in Printing(wrapped, line) && m == Text(page, y, wrapped[c][line]) {
        assert c < n ==> c in Printing(wrapped[..n], line) && wrapped[..n][c] == wrapped[c];
      }
      if c :| c in Printing(wrapped[..n], line) && m == Text(page, y, wrapped[..n][c][line]) {
        assert c in Printing(wrapped, line) && wrapped[..n][c] == wrapped[c];
      }
    }
  }

  lemma {:induction false} CellMarksAre(page: nat, y: real, wrapped: seq<seq<string>>, lines: nat, m: Mark)
    ensures m in CellMarks(page, y, wrapped, lines)
       <==> exists l, c :: 0 <= l < lines && c in Printing(wrapped, l)
              && m == Text(page, y + l as real * ROW_H, wrapped[c][l])
  {
    hide LineMarks, Printing;
    if lines > 0 {
      CellMarksAre(page, y, wrapped, lines - 1, m);
      LineMarksAre(page, y + (lines - 1) as real * ROW_H, wrapped, lines - 1, m);
    }
  }

  /** A row prints every line of every cell that has anything on it, one line height below
      the one before, and prints no other text. */
  lemma RowPrints(page: nat, y: real, wrapped: seq<seq<string>>, shaded: bool, m: Mark)
    requires m.Text?
    ensures m in RowMarks(page, y, wrapped, shaded)
       <==> exists c, l :: 0 <= c < |wrapped| && 0 <= l < |wrapped[c]| && wrapped[c][l] != ""
              && m == Text(page, y + 1.8 + l as real * 5.0, wrapped[c][l])
  {
    hide CellMarks;
    CellMarksAre(page, y + CELL_PAD_Y, wrapped, MaxLines(wrapped), m);
    if c, l :| 0 <= c < |wrapped| && 0 <= l < |wrapped[c]| && wrapped[c][l] != ""
               && m == Text(page, y + 1.8 + l as real * 5.0, wrapped[c][l]) {
      assert l < MaxLines(wrapped) && c in Printing(wrapped, l);
    }
  }

  // ----- every row on one page -----

  predicate OnPage(m: Mark, page: nat, top: real, bottom: real) {
    && m.page == page
    && match m
       case Text(_, y, _) => top <= y <= bottom
       case Band(_, t, b) => top <= t <= b <= bottom
       case Rule(_, y) => top <= y <= bottom
  }

  lemma {:induction false} LineMarksOnPage(page: nat, y: real, wrapped: seq<seq<string>>, line: nat, m: Mark)
    requires m in LineMarks(page, y, wrapped, line)
    ensures m.Text? && m.page == page && m.y == y
  {
    if m in LineMarks(page, y, wrapped[..|wrapped| - 1], line) {
      LineMarksOnPage(page, y, wrapped[..|wrapped| - 1], line, m);
    }
  }

  lemma {:induction false} CellMarksOnPage(page: nat, y: real, wrapped: seq<seq<string>>, lines: nat, m: Mark)
    requires m in CellMarks(page, y, wrapped, lines)
    ensures m.Text? && m.page == page && y <= m.y <= y + (lines - 1) as real * ROW_H
  {
    if m in CellMarks(page, y, wrapped, lines - 1) {
      CellMarksOnPage(page, y, wrapped, lines - 1, m);
    } else {
      LineMarksOnPage(page, y + (lines - 1) as real * ROW_H, wrapped, lines - 1, m);
    }
  }

  /** A row is drawn on one page, between its band's edges. */
  lemma RowOnOnePage(page: nat, y: real, wrapped: seq<seq<string>>, shaded: bool, m: Mark)
    requires m in RowMarks(page, y, wrapped, shaded)
    ensures OnPage(m, page, y - BAND_RISE, y - BAND_RISE + RowHeight(wrapped))
    ensures m.Text? ==> y + CELL_PAD_Y <= m.y <= y + RowHeight(wrapped) - CELL_PAD_Y - ROW_H
  {
    if m in CellMarks(page, y + CELL_PAD_Y, wrapped, MaxLines(wrapped)) {
      CellMarksOnPage(page, y + CELL_PAD_Y, wrapped, MaxLines(wrapped), m);
    }
  }

  /** Whatever the cursor was, the cursor's way down the row is inside the margins
      exactly when the row is no taller than a page. */
  lemma RowFitsExactly(at: Cursor, height: real)
    requires at.y >= MARGIN_TOP && height >= 0.0
    ensures var start := Room(at, height);
            start.y >= MARGIN_TOP && (start.y + height <= LIMIT <==> height <= BODY)
  {
  }

  /** A mark between the top and the bottom margin of its page. */
  predicate InMargins(m: Mark) {
    OnPage(m, m.page, MARGIN_TOP, LIMIT)
  }

  /** Where the band and the rule of the row fall, asked before it is drawn: under a
      cursor with room for the row, a shaded one needs its band's rise above it; on a
      page it opens, no band may be drawn and the rule must still reach the page. */
  predicate RowInMargins(at: Cursor, height: real, shaded: bool) {
    if at.y + height <= LIMIT then shaded ==> at.y >= MARGIN_TOP + BAND_RISE
    else !shaded && height <= BODY + BAND_RISE
  }

  lemma RuleAndBandDrawn(page: nat, y: real, wrapped: seq<seq<string>>, shaded: bool)
    ensures Rule(page, y - BAND_RISE + RowHeight(wrapped)) in RowMarks(page, y, wrapped, shaded)
    ensures shaded ==>
              Band(page, y - BAND_RISE, y - BAND_RISE + RowHeight(wrapped)) in RowMarks(page, y, wrapped, shaded)
  {
  }

  lemma MarkOfRow(page: nat, y: real, wrapped: seq<seq<string>>, shaded: bool, m: Mark)
    requires m in RowMarks(page, y, wrapped, shaded)
    ensures m.page == page
    ensures m.Band? ==> shaded && m.top == y - BAND_RISE && m.bottom == y - BAND_RISE + RowHeight(wrapped)
    ensures m.Rule? ==> m.y == y - BAND_RISE + RowHeight(wrapped)
    ensures m.Text? ==> y + CELL_PAD_Y <= m.y <= y + RowHeight(wrapped) - CELL_PAD_Y - ROW_H
  {
    hide RowHeight;
    RowOnOnePage(page, y, wrapped, shaded, m);
    if m.Band? || m.Rule? {
      CellMarksAreText(page, y + CELL_PAD_Y, wrapped, MaxLines(wrapped), m);
    }
  }

  lemma CellMarksAreText(page: nat, y: real, wrapped: seq<seq<string>>, lines: nat, m: Mark)
    requires !m.Text?
    ensures m !in CellMarks(page, y, wrapped, lines)
  {
    if m in CellMarks(page, y, wrapped, lines) {
      CellMarksOnPage(page, y, wrapped, lines, m);
    }
  }

  /** Everything a row draws is inside the margins exactly under that condition. */
  lemma RowMarksInMarginsExactly(at: Cursor, wrapped: seq<seq<string>>, shaded: bool)
    requires at.y >= MARGIN_TOP && MaxLines(wrapped) >= 1
    ensures var start := Room(at, RowHeight(wrapped));
            (forall m | m in RowMarks(start.page, start.y, wrapped, shaded) :: InMargins(m))
              <==> RowInMargins(at, RowHeight(wrapped), shaded)
  {
    hide RowMarks, CellMarks, LineMarks;
    var h := RowHeight(wrapped);
    var start := Room(at, h);
    RuleAndBandDrawn(start.page, start.y, wrapped, shaded);
    if RowInMargins(at, h, shaded) {
      forall m | m in RowMarks(start.page, start.y, wrapped, shaded)
        ensures InMargins(m)
      {
        MarkOfRow(start.page, start.y, wrapped, shaded, m);
      }
    }
  }

  /** The cursor at which row `i` of a table is asked for. */
  function Before(at: Cursor, rows: seq<seq<seq<string>>>, i: nat): Cursor
    requires i <= |rows|
  {
    After(at, Heights(rows[..i]))
  }

  predicate TableInMargins(at: Cursor, rows: seq<seq<seq<string>>>) {
    forall i | 0 <= i < |rows| :: RowInMargins(Before(at, rows, i), RowHeight(rows[i]), RowShaded(i))
  }

  lemma BeforeInFront(at: Cursor, rows: seq<seq<seq<string>>>, n: nat)
    requires n <= |rows|
    ensures forall i | 0 <= i <= n :: Before(at, rows[..n], i) == Before(at, rows, i)
  {
    forall i | 0 <= i <= n
      ensures Before(at, rows[..n], i) == Before(at, rows, i)
    {
      assert rows[..n][..i] == rows[..i];
    }
  }

  lemma BeforeBelowTop(at: Cursor, rows: seq<seq<seq<string>>>, i: nat)
    requires at.y >= MARGIN_TOP && i <= |rows|
    ensures Before(at, rows, i).y >= MARGIN_TOP
  {
    CursorStaysBelowTop(at, Heights(rows[..i]));
  }

  /** Everything a table draws is inside the margins exactly when every row is. */
  lemma {:induction false} TableMarksInMarginsExactly(at: Cursor, rows: seq<seq<seq<string>>>)
    requires at.y >= MARGIN_TOP && forall i | 0 <= i < |rows| :: MaxLines(rows[i]) >= 1
    ensures (forall m | m in TableMarks(at, rows) :: InMargins(m)) <==> TableInMargins(at, rows)
  {
    hide RowMarks, RowHeight, RowInMargins, InMargins, Room, After, Heights, MaxLines, Before;
    if rows != [] {
      var n := |rows| - 1;
      TableMarksInMarginsExactly(at, rows[..n]);
      BeforeInFront(at, rows, n);
      BeforeBelowTop(at, rows, n);
      LastRowMarks(at, rows);
      RowMarksInMarginsExactly(Before(at, rows, n), rows[n], RowShaded(n));
    }
  }

  lemma LastRowMarks(at: Cursor, rows: seq<seq<seq<string>>>)
    requires rows != []
    ensures var n := |rows| - 1;
            var start := Room(Before(at, rows, n), RowHeight(rows[n]));
            TableMarks(at, rows)
              == TableMarks(at, rows[..n]) + RowMarks(start.page, start.y, rows[n], RowShaded(n))
  {
  }

  predicate OpensPage(at: Cursor, rows: seq<seq<seq<string>>>, i: nat)
    requires i < |rows|
  {
    Before(at, rows, i).y + RowHeight(rows[i]) > LIMIT
  }

  /** Below a row there is always room for a band's rise. */
  lemma BeforeHasRise(at: Cursor, rows: seq<seq<seq<string>>>, i: nat)
    requires at.y >= MARGIN_TOP + BAND_RISE && i <= |rows|
    ensures Before(at, rows, i).y >= MARGIN_TOP + BAND_RISE
  {
    hide RowHeight;
    if i > 0 {
      var heights := Heights(rows[..i]);
      CursorStaysBelowTop(at, heights[..i - 1]);
      assert heights[i - 1] == RowHeight(rows[i - 1]) >= 2.0 * CELL_PAD_Y;
    }
  }

  /** Every cell of a wrapped row has a line, so every row of a table has one. */
  lemma WrappedRowsHaveLines(cols: seq<Col>, rows: seq<seq<string>>, i: nat)
    requires i < |rows|
    ensures MaxLines(WrapRows(cols, rows)[i]) >= 1
  {
    var wrapped := WrapItemCells(cols, rows[i]);
    if wrapped != [] {
      assert |wrapped[0]| >= 1;
    }
  }

  /** For rows no taller than a page, in a table begun with room for a band's rise:
      everything is inside the margins exactly when no shaded row opens a page. */
  lemma TableInMarginsExactly(at: Cursor, cols: seq<Col>, values: seq<seq<string>>)
    requires at.y >= MARGIN_TOP + BAND_RISE
    requires forall i | 0 <= i < |values| :: RowHeight(WrapRows(cols, values)[i]) <= BODY
    ensures var rows := WrapRows(cols, values);
            (forall m | m in TableMarks(at, rows) :: InMargins(m))
              <==> forall i | 0 <= i < |rows| && OpensPage(at, rows, i) :: !RowShaded(i)
  {
    hide InMargins, TableMarks, RowShaded, MaxLines, Before, WrapItemCells;
    var rows := WrapRows(cols, values);
    forall i | 0 <= i < |rows|
      ensures MaxLines(rows[i]) >= 1
      ensures RowInMargins(Before(at, rows, i), RowHeight(rows[i]), RowShaded(i))
         <==> (OpensPage(at, rows, i) ==> !RowShaded(i))
    {
      WrappedRowsHaveLines(cols, values, i);
      BeforeHasRise(at, rows, i);
    }
    TableMarksInMarginsExactly(at, rows);
  }

  /** The band rises above the cursor, so on a page a row opens it starts inside
      the top margin, by exactly the rise. */
  lemma OpeningBandRisesIntoMargin(at: Cursor, wrapped: seq<seq<string>>)
    requires at.y + RowHeight(wrapped) > LIMIT
    ensures var start := Room(at, RowHeight(wrapped));
            && start.page == at.page + 1
            && Band(start.page, MARGIN_TOP - BAND_RISE, MARGIN_TOP - BAND_RISE + RowHeight(wrapped))
                 in RowMarks(start.page, start.y, wrapped, true)
  {
  }

  lemma {:induction false} CursorStaysBelowTop(at: Cursor, heights: seq<real>)
    requires at.y >= MARGIN_TOP && forall i | 0 <= i < |heights| :: heights[i] >= 0.0
    ensures After(at, heights).y >= MARGIN_TOP && After(at, heights).page >= at.page
  {
    if heights != [] {
      CursorStaysBelowTop(at, heights[..|heights| - 1]);
    }
  }

  // ----- bands tile -----

  lemma AfterStep(at: Cursor, heights: seq<real>, i: nat)
    requires i < |heights|
    ensures After(at, heights[..i + 1]) == Below(StartOf(at, heights, i), heights[i])
  {
    assert heights[..i + 1][..i] == heights[..i];
  }

  /** Consecutive rows share an edge, or the second opens the next page because
      it did not fit under the first. */
  lemma BandsTile(at: Cursor, heights: seq<real>, i: nat)
    requires i + 1 < |heights|
    ensures var a, b := StartOf(at, heights, i), StartOf(at, heights, i + 1);
            if a.y + heights[i] + heights[i + 1] <= LIMIT
            then b.page == a.page && b.y - BAND_RISE == a.y - BAND_RISE + heights[i]
            else b == Cursor(a.page + 1, MARGIN_TOP)
  {
    AfterStep(at, heights, i);
  }

  /** No two rows on a page overlap, however far apart they are in the table. */
  lemma {:induction false} BandsNeverOverlap(at: Cursor, heights: seq<real>, i: nat, j: nat)
    requires i < j < |heights|
    requires forall k | 0 <= k < |heights| :: heights[k] >= 0.0
    ensures var a, b := StartOf(at, heights, i), StartOf(at, heights, j);
            a.page <= b.page && (a.page == b.page ==> a.y + heights[i] <= b.y)
    decreases j - i
  {
    BandsTile(at, heights, j - 1);
    if i < j - 1 {
      BandsNeverOverlap(at, heights, i, j - 1);
    }
  }

  // ----- columns -----

  function Wider(a: real, b: real): real {
    if a < b then b else a
  }

  /** The widest of a heading and the figures under it. */
  function WidestFigure(heading: string, rows: seq<seq<string>>, index: nat): real
    requires forall r | 0 <= r < |rows| :: index < |rows[r]|
  {
    if rows == [] then ApproxWidth(|heading|, FONT_SIZE)
    else Wider(WidestFigure(heading, rows[..|rows| - 1], index), ApproxWidth(|rows[|rows| - 1][index]|, FONT_SIZE))
  }

  function NaturalWidth(headings: seq<string>, rows: seq<seq<string>>, index: nat): real
    requires |headings| == 4 && 1 <= index < 4 && forall r | 0 <= r < |rows| :: |rows[r]| == 4
  {
    WidestFigure(headings[index], rows, index) + Gutters(index, 4).0 + Gutters(index, 4).1
  }

  lemma {:induction false} WidestCovers(heading: string, rows: seq<seq<string>>, index: nat)
    requires forall r | 0 <= r < |rows| :: index < |rows[r]|
    ensures WidestFigure(heading, rows, index) >= ApproxWidth(|heading|, FONT_SIZE) >= 0.0
    ensures forall r | 0 <= r < |rows| :: WidestFigure(heading, rows, index) >= ApproxWidth(|rows[r][index]|, FONT_SIZE)
  {
    if rows != [] {
      WidestCovers(heading, rows[..|rows| - 1], index);
    }
  }

  /** And it is the width of one of them. */
  lemma {:induction false} WidestIsOne(heading: string, rows: seq<seq<string>>, index: nat)
    requires forall r | 0 <= r < |rows| :: index < |rows[r]|
    ensures var w := WidestFigure(heading, rows, index);
            || w == ApproxWidth(|heading|, FONT_SIZE)
            || exists r :: 0 <= r < |rows| && w == ApproxWidth(|rows[r][index]|, FONT_SIZE)
  {
    hide ApproxWidth;
    if rows != [] {
      var n := |rows| - 1;
      WidestIsOne(heading, rows[..n], index);
      if r :| 0 <= r < n && WidestFigure(heading, rows[..n], index) == ApproxWidth(|rows[..n][r][index]|, FONT_SIZE) {
        assert rows[..n][r] == rows[r];
      }
      assert rows[n] == rows[|rows| - 1];
    }
  }

  method WidthOfFigures(heading: string, rows: seq<seq<string>>, index: nat) returns (width: real)
    requires forall r | 0 <= r < |rows| :: index < |rows[r]|
    ensures width == WidestFigure(heading, rows, index)
  {
    hide ApproxWidth;
    width := ApproxWidth(|heading|, FONT_SIZE);
    for r := 0 to |rows|
      invariant width == WidestFigure(heading, rows[..r], index)
    {
      assert rows[..r + 1][..r] == rows[..r];
      width := Wider(width, ApproxWidth(|rows[r][index]|, FONT_SIZE));
    }
    assert rows[..|rows|] == rows;
  }

  /** Nothing changes below the ceiling; above it everything by one factor. */
  function Squeezed(width: real, asked: real, ceiling: real): real {
    if asked > ceiling && asked != 0.0 then width * (ceiling / asked) else width
  }

  /** Squeezed columns keep their shares of what they asked for. */
  lemma SqueezedShare(width: real, other: real, asked: real, ceiling: real)
    ensures Squeezed(width, asked, ceiling) * other == width * Squeezed(other, asked, ceiling)
  {
    if asked > ceiling && asked != 0.0 {
      var k := ceiling / asked;
      assert (width * k) * other == width * (other * k);
    }
  }

  lemma Squeezes(width: real, asked: real, ceiling: real)
    requires 0.0 <= width <= asked && ceiling >= 0.0
    ensures Squeezed(width, asked, ceiling) >= 0.0
  {
    if asked > ceiling {
      var k := ceiling / asked;
      assert k >= 0.0;
      assert width * k >= 0.0;
    }
  }

  lemma SqueezedSum(a: real, b: real, c: real, ceiling: real)
    requires a >= 0.0 && b >= 0.0 && c >= 0.0 && ceiling >= 0.0
    ensures var asked := a + b + c;
            Squeezed(a, asked, ceiling) + Squeezed(b, asked, ceiling) + Squeezed(c, asked, ceiling)
              == if asked > ceiling then ceiling else asked
  {
    var asked := a + b + c;
    if asked > ceiling {
      var k := ceiling / asked;
      assert asked * k == ceiling;
      assert a * k + b * k + c * k == (a + b + c) * k;
    }
  }

  /** The four columns fill the measure exactly and Description keeps its share.
      Figure columns get what they ask for when that leaves Description enough,
      and are otherwise all scaled by one factor. */
  method ItemColumns(headings: seq<string>, rows: seq<seq<string>>) returns (widths: seq<real>)
    requires |headings| == 4 && forall r | 0 <= r < |rows| :: |rows[r]| == 4
    ensures |widths| == 4
    ensures widths[0] + widths[1] + widths[2] + widths[3] == PRINTABLE_W
    ensures widths[0] >= PRINTABLE_W * DESCRIPTION_MIN_FRACTION
    ensures forall i | 1 <= i < 4 :: widths[i] >= 0.0
    ensures var asked := NaturalWidth(headings, rows, 1) + NaturalWidth(headings, rows, 2)
                         + NaturalWidth(headings, rows, 3);
            var ceiling := PRINTABLE_W * (1.0 - DESCRIPTION_MIN_FRACTION);
            forall i | 1 <= i < 4 ::
              widths[i] == Squeezed(NaturalWidth(headings, rows, i), asked, ceiling)
  {
    hide ApproxWidth, NaturalWidth, Squeezed;
    var figures := new real[3];
    ghost var natural := seq(3, s requires 0 <= s < 3 => NaturalWidth(headings, rows, s + 1));
    for slot := 0 to 3
      invariant forall s | 0 <= s < slot :: figures[s] == natural[s] >= 0.0
    {
      figures[slot] := FigureWidth(headings, rows, slot + 1);
    }
    ScaleToFit(figures, PRINTABLE_W * (1.0 - DESCRIPTION_MIN_FRACTION));
    widths := [PRINTABLE_W - (figures[0] + figures[1] + figures[2]), figures[0], figures[1], figures[2]];
  }

  method FigureWidth(headings: seq<string>, rows: seq<seq<string>>, index: nat) returns (width: real)
    requires |headings| == 4 && 1 <= index < 4 && forall r | 0 <= r < |rows| :: |rows[r]| == 4
    ensures width == NaturalWidth(headings, rows, index) >= 0.0
  {
    hide ApproxWidth;
    var (left, right) := Gutters(index, |headings|);
    var widest := WidthOfFigures(headings[index], rows, index);
    WidestCovers(headings[index], rows, index);
    width := widest + left + right;
  }

  /** The figure columns scaled in place when together they pass the ceiling. */
  method ScaleToFit(figures: array<real>, ceiling: real)
    requires figures.Length == 3 && forall s | 0 <= s < 3 :: figures[s] >= 0.0
    requires ceiling >= 0.0
    modifies figures
    ensures var asked := old(figures[0] + figures[1] + figures[2]);
            forall s | 0 <= s < 3 :: figures[s] == Squeezed(old(figures[s]), asked, ceiling)
    ensures figures[0] + figures[1] + figures[2] <= ceiling
    ensures forall s | 0 <= s < 3 :: figures[s] >= 0.0
  {
    hide Squeezed, Shrunk;
    var asked := figures[0] + figures[1] + figures[2];
    SqueezedSum(figures[0], figures[1], figures[2], ceiling);
    for s := 0 to 3
      invariant forall k | 0 <= k < s :: figures[k] == Squeezed(old(figures[k]), asked, ceiling) >= 0.0
      invariant forall k | s <= k < 3 :: figures[k] == old(figures[k])
    {
      Squeezes(figures[s], asked, ceiling);
      SqueezeStep(figures[s], asked, ceiling);
      if asked > ceiling {
        figures[s] := Shrunk(figures[s], ceiling / asked);
      }
    }
  }

  function Shrunk(width: real, factor: real): real {
    width * factor
  }

  lemma SqueezeStep(width: real, asked: real, ceiling: real)
    requires ceiling >= 0.0
    ensures Squeezed(width, asked, ceiling) == if asked > ceiling then Shrunk(width, ceiling / asked) else width
  {
  }
}
