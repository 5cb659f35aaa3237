/**
 The editor's displayed rows, and moving the cursor up and down through them.

 Here a `char` is one Unicode scalar. Cutting text into graphemes is a parameter; `Cuts` says what is
 relied on: the graphemes make up the text, and text cut out between two of them is cut the same way.
 */
module EditorLayout {
  import opened Basics

  /** One grapheme: how many scalars it has and how many cells it shows as. */
  datatype Segment = Segment(scalars: nat, cells: nat, newline: bool)

  type Cutter = string -> seq<Segment>

  /** The scalar offset at which segment `i` starts. */
  function Off(segs: seq<Segment>, i: nat): (offset: nat)
    requires i <= |segs|
  {
    if i == 0 then 0 else Off(segs, i - 1) + segs[i - 1].scalars
  }

  function Cells(segs: seq<Segment>, first: nat, last: nat): nat
    requires first <= last <= |segs|
    decreases last
  {
    if first == last then 0 else Cells(segs, first, last - 1) + segs[last - 1].cells
  }

  ghost predicate WellCut(segs: seq<Segment>) {
    forall i :: 0 <= i < |segs| ==> segs[i].scalars >= 1 && (segs[i].newline ==> segs[i].scalars == 1)
  }

  ghost predicate SliceCut(g: Cutter, text: string, i: nat, j: nat) {
    i <= j <= |g(text)| && Off(g(text), i) <= Off(g(text), j) <= |text| ==>
      g(text[Off(g(text), i)..Off(g(text), j)]) == g(text)[i..j]
  }

  ghost predicate Cuts(g: Cutter) {
    && (forall text: string :: WellCut(g(text)) && Off(g(text), |g(text)|) == |text|)
    && (forall text: string, i: nat, j: nat :: SliceCut(g, text, i, j))
  }

  lemma {:induction false} OffGrows(segs: seq<Segment>, i: nat, j: nat)
    requires WellCut(segs) && i <= j <= |segs|
    ensures Off(segs, i) + (j - i) <= Off(segs, j)
    decreases j
  {
    if i < j {
      OffGrows(segs, i, j - 1);
    }
  }

  /** The segment a scalar offset lies in; past the text, the number of segments. */
  function SegmentAt(segs: seq<Segment>, cursor: nat, i: nat): (at: nat)
    requires i <= |segs|
    ensures i <= at <= |segs|
    ensures at < |segs| ==> cursor < Off(segs, at + 1)
    ensures i < at ==> Off(segs, at) <= cursor
    decreases |segs| - i
  {
    if i == |segs| || cursor < Off(segs, i + 1) then i else SegmentAt(segs, cursor, i + 1)
  }

  lemma {:induction false} SegmentIs(segs: seq<Segment>, cursor: nat, i: nat, at: nat)
    requires WellCut(segs) && i <= at <= |segs|
    requires Off(segs, at) <= cursor && (at < |segs| ==> cursor < Off(segs, at + 1))
    ensures SegmentAt(segs, cursor, i) == at
    decreases at - i
  {
    if i < at {
      OffGrows(segs, i + 1, at);
      SegmentIs(segs, cursor, i + 1, at);
    }
  }

  // ---------------------------------------------------------------- rows

  /** A displayed row: its scalars, and which segments they are. */
  datatype Row = Row(scalarStart: nat, scalarEnd: nat, first: nat, last: nat)

  function RowAt(segs: seq<Segment>, first: nat, last: nat): Row
    requires first <= last <= |segs|
  {
    Row(Off(segs, first), Off(segs, last), first, last)
  }

  /** The rows from a started row on, `used` cells of which are taken. */
  function RowsFrom(segs: seq<Segment>, first: nat, i: nat, used: nat, columns: nat): (rows: seq<Row>)
    requires first <= i <= |segs|
    ensures rows != []
    decreases |segs| - i
  {
    if i == |segs| then [RowAt(segs, first, i)]
    else if segs[i].newline then [RowAt(segs, first, i)] + RowsFrom(segs, i + 1, i + 1, 0, columns)
    else if first < i && used + segs[i].cells > columns then
      [RowAt(segs, first, i)] + RowsFrom(segs, i, i + 1, segs[i].cells, columns)
    else RowsFrom(segs, first, i + 1, used + segs[i].cells, columns)
  }

  /** A row ended by wrapping: the next row starts with the next segment. */
  predicate Soft(segs: seq<Segment>, row: Row) {
    row.last < |segs| && !segs[row.last].newline
  }

  /** A row shows the cursor at the segments it holds, and at its end unless the row was wrapped there. */
  predicate Owns(segs: seq<Segment>, row: Row, c: nat) {
    row.first <= c <= row.last && (c == row.last ==> !Soft(segs, row))
  }

  ghost predicate RowSound(segs: seq<Segment>, row: Row, columns: nat) {
    && row.first <= row.last <= |segs| && row == RowAt(segs, row.first, row.last)
    && (Soft(segs, row) ==> row.first < row.last)
    && (forall k :: row.first <= k < row.last ==> !segs[k].newline)
    && (Cells(segs, row.first, row.last) <= columns || row.last == row.first + 1)
  }

  ghost predicate Follows(segs: seq<Segment>, row: Row, next: Row) {
    row.last < |segs| && next.first == if Soft(segs, row) then row.last else row.last + 1
  }

  /** Rows partition the segments; only line feeds fall between rows; each fits or is a single grapheme. */
  ghost predicate Laid(segs: seq<Segment>, rows: seq<Row>, from: nat, columns: nat) {
    && rows != [] && rows[0].first == from && rows[|rows| - 1].last == |segs|
    && (forall i :: 0 <= i < |rows| ==> RowSound(segs, rows[i], columns))
    && (forall i :: 0 <= i < |rows| - 1 ==> Follows(segs, rows[i], rows[i + 1]))
  }

  lemma {:induction false} LaidCons(segs: seq<Segment>, row: Row, rest: seq<Row>, from: nat, columns: nat)
    requires Laid(segs, rest, from, columns) && RowSound(segs, row, columns) && Follows(segs, row, rest[0])
    ensures Laid(segs, [row] + rest, row.first, columns)
  {
    var rows := [row] + rest;
    forall i | 0 <= i < |rows| - 1 ensures Follows(segs, rows[i], rows[i + 1]) {
      if i > 0 {
        assert Follows(segs, rest[i - 1], rest[i]);
      }
    }
  }

  lemma {:induction false} RowsLaid(segs: seq<Segment>, first: nat, i: nat, used: nat, columns: nat)
    requires first <= i <= |segs| && used == Cells(segs, first, i)
    requires forall k :: first <= k < i ==> !segs[k].newline
    requires used <= columns || i == first + 1
    ensures Laid(segs, RowsFrom(segs, first, i, used, columns), first, columns)
    decreases |segs| - i
  {
    if i < |segs| {
      if segs[i].newline {
        RowsLaid(segs, i + 1, i + 1, 0, columns);
        LaidCons(segs, RowAt(segs, first, i), RowsFrom(segs, i + 1, i + 1, 0, columns), i + 1, columns);
      } else if first < i && used + segs[i].cells > columns {
        RowsLaid(segs, i, i + 1, segs[i].cells, columns);
        LaidCons(segs, RowAt(segs, first, i), RowsFrom(segs, i, i + 1, segs[i].cells, columns), i, columns);
      } else {
        RowsLaid(segs, first, i + 1, used + segs[i].cells, columns);
      }
    }
  }

  function AllRows(segs: seq<Segment>, columns: nat): (rows: seq<Row>)
    ensures rows != []
  {
    RowsFrom(segs, 0, 0, 0, columns)
  }

  /** The row that shows a segment. */
  function RowOf(segs: seq<Segment>, rows: seq<Row>, c: nat): (index: nat)
    ensures index <= |rows|
    ensures index < |rows| ==> Owns(segs, rows[index], c)
  {
    if rows == [] then 0 else if Owns(segs, rows[0], c) then 0 else 1 + RowOf(segs, rows[1..], c)
  }

  lemma {:induction false} RowOfIs(segs: seq<Segment>, rows: seq<Row>, from: nat, columns: nat, c: nat, index: nat)
    requires Laid(segs, rows, from, columns) && index < |rows| && Owns(segs, rows[index], c)
    ensures RowOf(segs, rows, c) == index
    decreases |rows|
  {
    if index > 0 {
      RowsAscend(segs, rows, from, columns, 0, index);
      LaidRest(segs, rows, from, columns);
      RowOfIs(segs, rows[1..], rows[1].first, columns, c, index - 1);
    }
  }

  lemma {:induction false} LaidRest(segs: seq<Segment>, rows: seq<Row>, from: nat, columns: nat)
    requires Laid(segs, rows, from, columns) && |rows| > 1
    ensures Laid(segs, rows[1..], rows[1].first, columns)
  {
    var rest := rows[1..];
    forall i | 0 <= i < |rest| - 1 ensures Follows(segs, rest[i], rest[i + 1]) {
      assert Follows(segs, rows[i + 1], rows[i + 2]);
    }
  }

  lemma {:induction false} RowsAscend(segs: seq<Segment>, rows: seq<Row>, from: nat, columns: nat, i: nat, j: nat)
    requires Laid(segs, rows, from, columns) && i < j < |rows|
    ensures rows[i].last <= rows[j].first && (!Soft(segs, rows[i]) ==> rows[i].last < rows[j].first)
    decreases j
  {
    assert Follows(segs, rows[j - 1], rows[j]) && RowSound(segs, rows[j - 1], columns);
    if i < j - 1 {
      RowsAscend(segs, rows, from, columns, i, j - 1);
    }
  }

  /** Every segment, and the end of the text, is shown in a row. */
  lemma {:induction false} RowOfExists(segs: seq<Segment>, rows: seq<Row>, from: nat, columns: nat, c: nat)
    requires Laid(segs, rows, from, columns) && from <= c <= |segs|
    ensures RowOf(segs, rows, c) < |rows|
    decreases |rows|
  {
    assert RowSound(segs, rows[0], columns);
    if !Owns(segs, rows[0], c) {
      assert |rows| > 1;
      assert Follows(segs, rows[0], rows[1]);
      LaidRest(segs, rows, from, columns);
      RowOfExists(segs, rows[1..], rows[1].first, columns, c);
    }
  }

  // ---------------------------------------------------------------- the layout loop

  method LayoutEditorText(g: Cutter, text: string, cursor: nat, columns: nat)
    returns (rows: seq<Row>, cursorRow: nat, cursorCell: nat)
    requires Cuts(g)
    ensures rows == AllRows(g(text), columns)
    ensures var c := SegmentAt(g(text), cursor, 0);
            && cursorRow == RowOf(g(text), rows, c) < |rows|
            && rows[cursorRow].first <= c <= |g(text)| && cursorCell == Cells(g(text), rows[cursorRow].first, c)
  {
    var segments := g(text);
    assert WellCut(segments);
    hide Cuts, WellCut, Laid, RowOf, RowsFrom, AllRows, Cells, CursorAt, SegmentAt, Owns, Off, Remaining, RowAt,
      Scanned;
    rows := [];
    var used: nat, first: nat, start: nat, end: nat := 0, 0, 0, 0;
    cursorRow, cursorCell := 0, 0;
    var cursorSet := false;
    ghost var c := SegmentAt(segments, cursor, 0);
    ghost var all := AllRows(segments, columns);
    StartLayout(segments, cursor, columns);
    for i := 0 to |segments|
      invariant Scanned(segments, first, i, used, start, end)
      invariant Remaining(segments, rows, first, i, used, columns)
      invariant cursorSet <==> c < i
      invariant cursorSet ==> CursorAt(segments, all, c, cursorRow, cursorCell)
    {
      var segment := segments[i];
      ScannedStep(segments, first, i, used, start, end);
      OffOutside(segments, cursor, i);
      RowsStep(segments, rows, first, i, used, columns);
      if segment.newline {
        if !cursorSet && end <= cursor < end + segment.scalars {
          OwnEnd(segments, rows, columns, first, i, used);
          cursorRow, cursorCell, cursorSet := |rows|, used, true;
        }
        rows := rows + [Row(start, end, first, i)];
        used := 0;
        start, end, first := end + segment.scalars, end + segment.scalars, i + 1;
      } else {
        if first < i && used + segment.cells > columns {
          rows := rows + [Row(start, end, first, i)];
          used, start, first := 0, end, i;
        }
        if !cursorSet && end <= cursor < end + segment.scalars {
          OwnInside(segments, rows, columns, first, i, used + segment.cells);
          cursorRow, cursorCell, cursorSet := |rows|, used, true;
        }
        used, end := used + segment.cells, end + segment.scalars;
      }
    }
    ScannedIs(segments, first, |segments|, used, start, end);
    if !cursorSet {
      cursorRow, cursorCell := |rows|, used;
      OwnEnd(segments, rows, columns, first, |segments|, used);
    }
    LastRow(segments, rows, first, used, columns);
    rows := rows + [Row(start, end, first, |segments|)];
    assert CursorAt(segments, rows, c, cursorRow, cursorCell);
    CursorIs(segments, rows, c, cursorRow, cursorCell);
  }

  lemma {:induction false} StartLayout(segs: seq<Segment>, cursor: nat, columns: nat)
    ensures Remaining(segs, [], 0, 0, 0, columns)
    ensures Scanned(segs, 0, 0, 0, 0, 0) && SegmentAt(segs, cursor, 0) <= |segs|
  {
  }

  /** What the loop's counters say about the row it has started. */
  ghost predicate Scanned(segs: seq<Segment>, first: nat, i: nat, used: nat, start: nat, end: nat) {
    && first <= i <= |segs| && used == Cells(segs, first, i)
    && start == Off(segs, first) && end == Off(segs, i)
  }

  lemma {:induction false} ScannedIs(segs: seq<Segment>, first: nat, i: nat, used: nat, start: nat, end: nat)
    requires Scanned(segs, first, i, used, start, end)
    ensures first <= i <= |segs| && used == Cells(segs, first, i) && RowAt(segs, first, i) == Row(start, end, first, i)
  {
  }

  lemma {:induction false} ScannedStep(segs: seq<Segment>, first: nat, i: nat, used: nat, start: nat, end: nat)
    requires i < |segs| && Scanned(segs, first, i, used, start, end)
    ensures first <= i && used == Cells(segs, first, i) && RowAt(segs, first, i) == Row(start, end, first, i)
    ensures end == Off(segs, i) && end + segs[i].scalars == Off(segs, i + 1)
    ensures Scanned(segs, i + 1, i + 1, 0, end + segs[i].scalars, end + segs[i].scalars)
    ensures Scanned(segs, i, i + 1, segs[i].cells, end, end + segs[i].scalars)
    ensures Scanned(segs, first, i + 1, used + segs[i].cells, start, end + segs[i].scalars)
    ensures Cells(segs, i, i) == 0
  {
    CellsStep(segs, i, i);
  }

  /** The rows pushed so far and those still to come are the layout. */
  ghost predicate Remaining(segs: seq<Segment>, rows: seq<Row>, first: nat, i: nat, used: nat, columns: nat) {
    first <= i <= |segs| && rows + RowsFrom(segs, first, i, used, columns) == AllRows(segs, columns)
  }

  lemma {:induction false} LastRow(segs: seq<Segment>, rows: seq<Row>, first: nat, used: nat, columns: nat)
    requires Remaining(segs, rows, first, |segs|, used, columns)
    ensures rows + [RowAt(segs, first, |segs|)] == AllRows(segs, columns)
  {
  }

  lemma {:induction false} CursorIs(segs: seq<Segment>, rows: seq<Row>, c: nat, row: nat, cell: nat)
    requires CursorAt(segs, rows, c, row, cell)
    ensures row == RowOf(segs, rows, c) < |rows| && rows[row].first <= c <= |segs|
    ensures cell == Cells(segs, rows[row].first, c)
  {
  }

  /** One step of the layout, after the rows already pushed. */
  lemma {:induction false} RowsStep(segs: seq<Segment>, rows: seq<Row>, first: nat, i: nat, used: nat, columns: nat)
    requires i < |segs| && Remaining(segs, rows, first, i, used, columns)
    ensures var own := RowAt(segs, first, i);
            if segs[i].newline then Remaining(segs, rows + [own], i + 1, i + 1, 0, columns)
            else if first < i && used + segs[i].cells > columns then
              Remaining(segs, rows + [own], i, i + 1, segs[i].cells, columns)
            else Remaining(segs, rows, first, i + 1, used + segs[i].cells, columns)
  {
  }

  ghost predicate CursorAt(segs: seq<Segment>, rows: seq<Row>, c: nat, row: nat, cell: nat) {
    && row == RowOf(segs, rows, c) < |rows|
    && rows[row].first <= c <= |segs| && cell == Cells(segs, rows[row].first, c)
  }

  lemma {:induction false} OffBelow(segs: seq<Segment>, cursor: nat, i: nat)
    requires WellCut(segs) && i <= |segs|
    ensures i <= SegmentAt(segs, cursor, 0) ==> Off(segs, i) <= cursor
    ensures i < SegmentAt(segs, cursor, 0) ==> Off(segs, i + 1) <= cursor
  {
    var c := SegmentAt(segs, cursor, 0);
    if i < c {
      OffGrows(segs, i + 1, c);
    }
  }

  lemma {:induction false} OffOutside(segs: seq<Segment>, cursor: nat, i: nat)
    requires WellCut(segs) && i < |segs|
    ensures Off(segs, i) <= cursor < Off(segs, i + 1) <==> i == SegmentAt(segs, cursor, 0)
  {
    OffBelow(segs, cursor, i);
    if Off(segs, i) <= cursor < Off(segs, i + 1) {
      SegmentIs(segs, cursor, 0, i);
    }
  }

  /** The started row stays a row that begins where it was started and reaches at least as far. */
  lemma {:induction false} RowHolds(segs: seq<Segment>, first: nat, i: nat, used: nat, columns: nat)
    requires first <= i <= |segs|
    ensures RowsFrom(segs, first, i, used, columns)[0].first == first
    ensures i <= RowsFrom(segs, first, i, used, columns)[0].last <= |segs|
    decreases |segs| - i
  {
    if i < |segs| && !segs[i].newline && !(first < i && used + segs[i].cells > columns) {
      RowHolds(segs, first, i + 1, used + segs[i].cells, columns);
    }
  }

  lemma {:induction false} OwnEnd(segs: seq<Segment>, rows: seq<Row>, columns: nat, first: nat, i: nat, used: nat)
    requires Remaining(segs, rows, first, i, used, columns) && (i < |segs| ==> segs[i].newline)
    ensures CursorAt(segs, AllRows(segs, columns), i, |rows|, Cells(segs, first, i))
  {
    var all := AllRows(segs, columns);
    RowsLaid(segs, 0, 0, 0, columns);
    assert all[|rows|] == RowsFrom(segs, first, i, used, columns)[0];
    RowOfIs(segs, all, 0, columns, i, |rows|);
  }

  lemma {:induction false} OwnInside(segs: seq<Segment>, rows: seq<Row>, columns: nat, first: nat, i: nat, used: nat)
    requires first <= i < |segs| && Remaining(segs, rows, first, i + 1, used, columns)
    ensures CursorAt(segs, AllRows(segs, columns), i, |rows|, Cells(segs, first, i))
  {
    var all := AllRows(segs, columns);
    RowsLaid(segs, 0, 0, 0, columns);
    RowHolds(segs, first, i + 1, used, columns);
    assert all[|rows|] == RowsFrom(segs, first, i + 1, used, columns)[0];
    RowOfIs(segs, all, 0, columns, i, |rows|);
  }

  // ---------------------------------------------------------------- moving up and down

  /** How far into a row a column reaches, in segments. */
  function Fit(segs: seq<Segment>, i: nat, last: nat, used: nat, column: nat): (fit: nat)
    requires i <= last <= |segs|
    ensures i <= fit <= last
    decreases last - i
  {
    if i == last || used + segs[i].cells > column then i else Fit(segs, i + 1, last, used + segs[i].cells, column)
  }

  /** The segment a vertical move into a row lands on; a wrap boundary belongs to the next row. */
  function Landing(segs: seq<Segment>, row: Row, column: nat): (at: nat)
    requires row.first <= row.last <= |segs|
    ensures row.first <= at <= row.last
  {
    var fit := Fit(segs, row.first, row.last, 0, column);
    if fit == row.last && Soft(segs, row) && row.first < fit then fit - 1 else fit
  }

  datatype CursorState = CursorState(cursor: nat, preferred: Option<nat>)

  function Column(segs: seq<Segment>, columns: nat, s: CursorState): nat {
    if s.preferred.Some? then s.preferred.value
    else
      var rows := AllRows(segs, columns);
      var c := SegmentAt(segs, s.cursor, 0);
      var r := RowOf(segs, rows, c);
      if r < |rows| && rows[r].first <= c then Cells(segs, rows[r].first, c) else 0
  }

  function CursorRow(segs: seq<Segment>, columns: nat, cursor: nat): nat {
    RowOf(segs, AllRows(segs, columns), SegmentAt(segs, cursor, 0))
  }

  /** One move; None when there is no row to move to. */
  function Moved(segs: seq<Segment>, columns: nat, s: CursorState, direction: int): (next: Option<CursorState>)
  {
    var rows := AllRows(segs, columns);
    var index := CursorRow(segs, columns, s.cursor) + direction;
    if index < 0 || index >= |rows| then None
    else
      RowsLaid(segs, 0, 0, 0, columns);
      assert RowSound(segs, rows[index], columns);
      var column := Column(segs, columns, s);
      Some(CursorState(Off(segs, Landing(segs, rows[index], column)), Some(column)))
  }

  lemma {:induction false} CellsStep(segs: seq<Segment>, from: nat, to: nat)
    requires from <= to < |segs|
    ensures Cells(segs, from, to + 1) == Cells(segs, from, to) + segs[to].cells
  {
  }

  lemma {:induction false} FitWithin(segs: seq<Segment>, first: nat, i: nat, last: nat, column: nat)
    requires first <= i <= last <= |segs| && Cells(segs, first, i) <= column
    ensures Cells(segs, first, Fit(segs, i, last, Cells(segs, first, i), column)) <= column
    decreases last - i
  {
    if i < last && Cells(segs, first, i) + segs[i].cells <= column {
      CellsStep(segs, first, i);
      FitWithin(segs, first, i + 1, last, column);
    }
  }

  lemma {:induction false} LandingOwned(segs: seq<Segment>, row: Row, columns: nat, column: nat)
    requires RowSound(segs, row, columns)
    ensures Owns(segs, row, Landing(segs, row, column))
    ensures Cells(segs, row.first, Landing(segs, row, column)) <= column
  {
    var at := Landing(segs, row, column);
    FitWithin(segs, row.first, row.first, row.last, column);
    if at < Fit(segs, row.first, row.last, 0, column) {
      CellsStep(segs, row.first, at);
    }
  }

  /** When a move succeeds and where it goes. */
  lemma {:induction false} MovedWhere(segs: seq<Segment>, columns: nat, s: CursorState, direction: int)
    ensures var rows := AllRows(segs, columns);
            var index := CursorRow(segs, columns, s.cursor) + direction;
            var next := Moved(segs, columns, s, direction);
            && (next.Some? <==> 0 <= index < |rows|)
            && (next.Some? ==>
                  && RowSound(segs, rows[index], columns)
                  && next.value == CursorState(Off(segs, Landing(segs, rows[index], Column(segs, columns, s))),
                                               Some(Column(segs, columns, s))))
  {
    RowsLaid(segs, 0, 0, 0, columns);
    hide RowsFrom, Landing, Column, CursorRow;
    var rows := AllRows(segs, columns);
    var index := CursorRow(segs, columns, s.cursor) + direction;
    assert 0 <= index < |rows| ==> RowSound(segs, rows[index], columns);
  }

  lemma {:induction false} AtOffset(segs: seq<Segment>, columns: nat, at: nat, index: nat)
    requires WellCut(segs) && index < |AllRows(segs, columns)| && at <= |segs|
    requires Owns(segs, AllRows(segs, columns)[index], at)
    ensures SegmentAt(segs, Off(segs, at), 0) == at && CursorRow(segs, columns, Off(segs, at)) == index
  {
    RowsLaid(segs, 0, 0, 0, columns);
    hide RowsFrom, Owns;
    if at < |segs| {
      OffGrows(segs, at, at + 1);
    }
    SegmentIs(segs, Off(segs, at), 0, at);
    RowOfIs(segs, AllRows(segs, columns), 0, columns, at, index);
  }

  /** A move lands in the adjacent displayed row, no further right than asked. */
  lemma {:induction false} MoveLands(segs: seq<Segment>, columns: nat, s: CursorState, direction: int)
    requires WellCut(segs) && Moved(segs, columns, s, direction).Some?
    ensures var next := Moved(segs, columns, s, direction).value;
            var at := SegmentAt(segs, next.cursor, 0);
            var rows := AllRows(segs, columns);
            var r := CursorRow(segs, columns, next.cursor);
            && r == CursorRow(segs, columns, s.cursor) + direction && r < |rows|
            && next.preferred == Some(Column(segs, columns, s))
            && next.cursor == Off(segs, at) && rows[r].first <= at <= |segs|
            && Cells(segs, rows[r].first, at) <= Column(segs, columns, s)
  {
    hide RowsFrom, Column, AllRows, CursorRow, Landing, Moved, Off, Cells;
    MovedWhere(segs, columns, s, direction);
    var rows := AllRows(segs, columns);
    var index := CursorRow(segs, columns, s.cursor) + direction;
    LandingOwned(segs, rows[index], columns, Column(segs, columns, s));
    AtOffset(segs, columns, Landing(segs, rows[index], Column(segs, columns, s)), index);
  }

  /** `count` moves in one direction. */
  function MovedTimes(segs: seq<Segment>, columns: nat, s: CursorState, direction: int, count: nat): Option<CursorState>
    decreases count
  {
    if count == 0 then Some(s)
    else match Moved(segs, columns, s, direction)
      case None => None
      case Some(next) => MovedTimes(segs, columns, next, direction, count - 1)
  }

  /** Where a run of moves ends depends only on the row reached and on the column it set out with. */
  lemma {:induction false} MovesLand(segs: seq<Segment>, columns: nat, s: CursorState, direction: int, count: nat)
    requires WellCut(segs) && count > 0 && (direction == 1 || direction == -1)
    ensures var rows := AllRows(segs, columns);
            var index := CursorRow(segs, columns, s.cursor) + direction * count;
            var end := MovedTimes(segs, columns, s, direction, count);
            && (end.Some? ==> 0 <= index < |rows|)
            && (0 <= index < |rows| && CursorRow(segs, columns, s.cursor) < |rows| ==> end.Some?)
            && (end.Some? ==>
                  && rows[index].first <= rows[index].last <= |segs|
                  && CursorRow(segs, columns, end.value.cursor) == index
                  && end.value == CursorState(Off(segs, Landing(segs, rows[index], Column(segs, columns, s))),
                                              Some(Column(segs, columns, s))))
    decreases count
  {
    hide RowsFrom, Landing, CursorRow, Column, AllRows, Moved, Off, Cells;
    MovedWhere(segs, columns, s, direction);
    match Moved(segs, columns, s, direction)
    case None =>
    case Some(next) =>
      MoveLands(segs, columns, s, direction);
      KeepsColumn(segs, columns, next);
      if count > 1 {
        assert direction * count == direction + direction * (count - 1);
        MovesLand(segs, columns, next, direction, count - 1);
      }
  }

  lemma {:induction false} KeepsColumn(segs: seq<Segment>, columns: nat, s: CursorState)
    requires s.preferred.Some?
    ensures Column(segs, columns, s) == s.preferred.value
  {
  }

  /** As many ups as downs: all succeed, and the cursor is where a move into its own row would land. */
  lemma {:induction false} UpsThenDowns(segs: seq<Segment>, columns: nat, s: CursorState, count: nat)
    requires WellCut(segs) && count > 0 && MovedTimes(segs, columns, s, -1, count).Some?
    ensures var rows := AllRows(segs, columns);
            var up := MovedTimes(segs, columns, s, -1, count).value;
            var row := CursorRow(segs, columns, s.cursor);
            && row < |rows| && rows[row].first <= rows[row].last <= |segs|
            && MovedTimes(segs, columns, up, 1, count)
               == Some(CursorState(Off(segs, Landing(segs, rows[row], Column(segs, columns, s))),
                                   Some(Column(segs, columns, s))))
  {
    var rows := AllRows(segs, columns);
    RowsLaid(segs, 0, 0, 0, columns);
    RowOfExists(segs, rows, 0, columns, SegmentAt(segs, s.cursor, 0));
    var row := CursorRow(segs, columns, s.cursor);
    assert RowSound(segs, rows[row], columns);
    hide RowsFrom, Landing, Column, CursorRow, MovedTimes, AllRows;
    MovesLand(segs, columns, s, -1, count);
    var up := MovedTimes(segs, columns, s, -1, count).value;
    assert CursorRow(segs, columns, up.cursor) == row - count;
    KeepsColumn(segs, columns, up);
    MovesLand(segs, columns, up, 1, count);
  }

  /**
   A column points at a segment of a row: the segment's first cell is not past the column, and its
   last is, or it is the row's last, which stands for a wrap boundary as well.
   */
  predicate PointsAt(segs: seq<Segment>, row: Row, c: nat, column: nat)
    requires row.first <= c <= row.last <= |segs|
  {
    var before := Cells(segs, row.first, c);
    && before <= column
    && (c == row.last || column < before + segs[c].cells || (c + 1 == row.last && Soft(segs, row)))
  }

  lemma {:induction false} FitReaches(segs: seq<Segment>, first: nat, i: nat, c: nat, last: nat, column: nat)
    requires first <= i <= c <= last <= |segs|
    ensures Cells(segs, first, i) <= Cells(segs, first, c)
    ensures var fit := Fit(segs, i, last, Cells(segs, first, i), column);
            if Cells(segs, first, c) <= column then fit == Fit(segs, c, last, Cells(segs, first, c), column)
            else fit < c || Cells(segs, first, i) > column
    decreases c - i
  {
    if i < c {
      FitReaches(segs, first, i + 1, c, last, column);
      CellsStep(segs, first, i);
    }
  }

  lemma {:induction false} LandsWhere(segs: seq<Segment>, row: Row, c: nat, column: nat)
    requires row.first <= c <= row.last <= |segs| && Owns(segs, row, c)
    ensures Landing(segs, row, column) == c <==> PointsAt(segs, row, c, column)
  {
    FitReaches(segs, row.first, row.first, c, row.last, column);
  }

  lemma {:induction false} OffSame(segs: seq<Segment>, i: nat, j: nat)
    requires WellCut(segs) && i <= |segs| && j <= |segs|
    ensures Off(segs, i) == Off(segs, j) <==> i == j
  {
    if i <= j {
      OffGrows(segs, i, j);
    } else {
      OffGrows(segs, j, i);
    }
  }

  /**
   When a run of ups and downs restores the cursor, from any state: exactly when it stood at the
   start of the grapheme of its own row that the column in force points at.
   */
  lemma {:induction false} RestoredExactly(segs: seq<Segment>, columns: nat, s: CursorState, count: nat)
    requires WellCut(segs) && count > 0 && MovedTimes(segs, columns, s, -1, count).Some?
    ensures var rows := AllRows(segs, columns);
            var up := MovedTimes(segs, columns, s, -1, count).value;
            var c := SegmentAt(segs, s.cursor, 0);
            var row := CursorRow(segs, columns, s.cursor);
            && row < |rows| && rows[row].first <= c <= rows[row].last <= |segs|
            && MovedTimes(segs, columns, up, 1, count).Some?
            && (MovedTimes(segs, columns, up, 1, count).value.cursor == s.cursor
                <==> s.cursor == Off(segs, c) && PointsAt(segs, rows[row], c, Column(segs, columns, s)))
  {
    var rows := AllRows(segs, columns);
    RowsLaid(segs, 0, 0, 0, columns);
    var c := SegmentAt(segs, s.cursor, 0);
    RowOfExists(segs, rows, 0, columns, c);
    var row := CursorRow(segs, columns, s.cursor);
    UpsThenDowns(segs, columns, s, count);
    hide RowsFrom, Landing, MovedTimes, Laid, AllRows, PointsAt, Column;
    var at := Landing(segs, rows[row], Column(segs, columns, s));
    LandsWhere(segs, rows[row], c, Column(segs, columns, s));
    if s.cursor == Off(segs, at) {
      OffSame(segs, at, c);
      if at < |segs| {
        OffGrows(segs, at, at + 1);
      }
      SegmentIs(segs, s.cursor, 0, at);
    }
  }

  /**
   So a run that sets out without a column restores the cursor exactly when it stood at the start of
   a grapheme that takes cells, at a line's end, or at the last grapheme of a wrapped row.
   */
  lemma {:induction false} FreshRestored(segs: seq<Segment>, columns: nat, s: CursorState, count: nat)
    requires WellCut(segs) && count > 0 && s.preferred.None? && MovedTimes(segs, columns, s, -1, count).Some?
    ensures var rows := AllRows(segs, columns);
            var up := MovedTimes(segs, columns, s, -1, count).value;
            var c := SegmentAt(segs, s.cursor, 0);
            var row := CursorRow(segs, columns, s.cursor);
            && row < |rows| && rows[row].first <= c <= rows[row].last <= |segs|
            && MovedTimes(segs, columns, up, 1, count).Some?
            && (MovedTimes(segs, columns, up, 1, count).value.cursor == s.cursor
                <==> s.cursor == Off(segs, c)
                     && (c == rows[row].last || segs[c].cells > 0
                         || (c + 1 == rows[row].last && Soft(segs, rows[row]))))
  {
    hide RowsFrom, MovedTimes, AllRows, Cells, CursorRow;
    RestoredExactly(segs, columns, s, count);
    ColumnIs(segs, columns, s);
  }

  /** One segment for each scalar; the vowel sign U+102B, a grapheme of its own, takes no cells. */
  function ByScalar(): Cutter {
    (text: string) => seq(|text|, i requires 0 <= i < |text| =>
      Segment(1, if text[i] == '\U{102B}' then 0 else 1, text[i] == '\n'))
  }

  lemma {:induction false} ByScalarOff(text: string, i: nat)
    requires i <= |text|
    ensures Off(ByScalar()(text), i) == i
  {
    if i > 0 {
      ByScalarOff(text, i - 1);
    }
  }

  lemma {:induction false} ByScalarCuts()
    ensures Cuts(ByScalar())
  {
    hide Off;
    var g := ByScalar();
    forall text: string ensures WellCut(g(text)) && Off(g(text), |g(text)|) == |text| {
      ByScalarOff(text, |text|);
    }
    forall text: string, i: nat, j: nat ensures SliceCut(g, text, i, j) {
      if i <= j <= |text| {
        ByScalarOff(text, i);
        ByScalarOff(text, j);
        assert g(text[i..j]) == g(text)[i..j];
      }
    }
  }

  /** The exception is real: a mark alone at the start of a line takes no cells and is stepped over. */
  lemma {:induction false} ZeroCellsNotRestored()
    ensures Cuts(ByScalar())
    ensures var segs := ByScalar()("a\n\U{102B}");
            && MovedTimes(segs, 80, CursorState(2, None), -1, 1) == Some(CursorState(0, Some(0)))
            && MovedTimes(segs, 80, CursorState(0, Some(0)), 1, 1) == Some(CursorState(3, Some(0)))
  {
    ByScalarCuts();
    var text := "a\n\U{102B}";
    assert text[0] == 'a' && text[1] == '\n' && text[2] == '\U{102B}';
    assert ByScalar()(text) == [Segment(1, 1, false), Segment(1, 1, true), Segment(1, 0, false)];
    MarkSteppedOver();
  }

  lemma {:induction false} MarkRows()
    ensures var segs := [Segment(1, 1, false), Segment(1, 1, true), Segment(1, 0, false)];
            && AllRows(segs, 80) == [RowAt(segs, 0, 1), RowAt(segs, 2, 3)]
            && CursorRow(segs, 80, 2) == 1 && CursorRow(segs, 80, 0) == 0 && SegmentAt(segs, 2, 0) == 2
            && Off(segs, 0) == 0 && Off(segs, 3) == 3
  {
    var segs := [Segment(1, 1, false), Segment(1, 1, true), Segment(1, 0, false)];
    assert WellCut(segs);
    assert Off(segs, 1) == 1 && Off(segs, 2) == 2 && Off(segs, 3) == 3;
    assert RowsFrom(segs, 2, 3, 0, 80) == [RowAt(segs, 2, 3)];
    assert RowsFrom(segs, 2, 2, 0, 80) == [RowAt(segs, 2, 3)];
    assert RowsFrom(segs, 0, 1, 1, 80) == [RowAt(segs, 0, 1), RowAt(segs, 2, 3)];
    var rows := AllRows(segs, 80);
    assert rows == [RowAt(segs, 0, 1), RowAt(segs, 2, 3)];
    SegmentIs(segs, 2, 0, 2);
    SegmentIs(segs, 0, 0, 0);
    RowsLaid(segs, 0, 0, 0, 80);
    RowOfIs(segs, rows, 0, 80, 2, 1);
    RowOfIs(segs, rows, 0, 80, 0, 0);
  }

  lemma {:induction false} MarkSteppedOver()
    ensures var segs := [Segment(1, 1, false), Segment(1, 1, true), Segment(1, 0, false)];
            && MovedTimes(segs, 80, CursorState(2, None), -1, 1) == Some(CursorState(0, Some(0)))
            && MovedTimes(segs, 80, CursorState(0, Some(0)), 1, 1) == Some(CursorState(3, Some(0)))
  {
    hide RowsFrom, AllRows, CursorRow, SegmentAt, Off;
    var segs := [Segment(1, 1, false), Segment(1, 1, true), Segment(1, 0, false)];
    MarkRows();
    var rows := AllRows(segs, 80);
    assert Landing(segs, rows[0], 0) == 0;
    assert Landing(segs, rows[1], 0) == 3;
    var down := CursorState(0, Some(0));
    assert Column(segs, 80, CursorState(2, None)) == 0;
    assert Moved(segs, 80, CursorState(2, None), -1) == Some(down);
    assert Moved(segs, 80, down, 1) == Some(CursorState(3, Some(0)));
  }

  /** `moveEditorCursorVertically`: lays out, then walks the graphemes of the target row's own text. */
  method MoveEditorCursorVertically(g: Cutter, text: string, cursor: nat, columns: nat, direction: int,
                                    preferred: Option<nat>)
    returns (moved: Option<CursorState>)
    requires Cuts(g)
    ensures moved == Moved(g(text), columns, CursorState(cursor, preferred), direction)
  {
    hide Cuts, AllRows, Moved, RowOf, SegmentAt, Cells;
    ghost var segs := g(text);
    var rows, cursorRow, cursorCell := LayoutEditorText(g, text, cursor, columns);
    var index := cursorRow + direction;
    MovedWhere(segs, columns, CursorState(cursor, preferred), direction);
    if index < 0 || index >= |rows| {
      return None;
    }
    var row := rows[index];
    var column := if preferred.Some? then preferred.value else cursorCell;
    ColumnIs(segs, columns, CursorState(cursor, preferred));
    hide Column, Landing, RowsFrom;
    var wrapped := index + 1 < |rows| && rows[index + 1].scalarStart == row.scalarEnd;
    SourceSegments(g, text, row, columns);
    WrapStarts(segs, rows, columns, index);
    var at := LandIn(g, text, row, columns, column, wrapped);
    moved := Some(CursorState(at, Some(column)));
  }

  lemma {:induction false} ColumnIs(segs: seq<Segment>, columns: nat, s: CursorState)
    requires CursorRow(segs, columns, s.cursor) < |AllRows(segs, columns)|
    ensures var row := AllRows(segs, columns)[CursorRow(segs, columns, s.cursor)];
            var c := SegmentAt(segs, s.cursor, 0);
            && row.first <= c <= |segs|
            && Column(segs, columns, s) == if s.preferred.Some? then s.preferred.value else Cells(segs, row.first, c)
  {
  }

  lemma {:induction false} SourceSegments(g: Cutter, text: string, row: Row, columns: nat)
    requires Cuts(g) && RowSound(g(text), row, columns)
    ensures WellCut(g(text)) && row.scalarStart <= row.scalarEnd <= |text|
    ensures g(text[row.scalarStart..row.scalarEnd]) == g(text)[row.first..row.last]
  {
    var segs := g(text);
    assert WellCut(segs) && Off(segs, |segs|) == |text|;
    assert SliceCut(g, text, row.first, row.last);
    OffGrows(segs, row.first, row.last);
    OffGrows(segs, row.last, |segs|);
  }

  /** Walks a row's own graphemes up to a column; a cursor at a wrap boundary stays in the row. */
  method LandIn(g: Cutter, text: string, row: Row, columns: nat, column: nat, wrapped: bool) returns (at: nat)
    requires WellCut(g(text)) && RowSound(g(text), row, columns) && row.scalarStart <= row.scalarEnd <= |text|
    requires g(text[row.scalarStart..row.scalarEnd]) == g(text)[row.first..row.last]
    requires wrapped <==> Soft(g(text), row)
    ensures at == Off(g(text), Landing(g(text), row, column))
  {
    hide WellCut, Soft;
    ghost var segs := g(text);
    var source := g(text[row.scalarStart..row.scalarEnd]);
    ghost var fit := Fit(segs, row.first, row.last, 0, column);
    var used: nat, lastStart: nat, i: nat := 0, row.scalarStart, 0;
    at := row.scalarStart;
    while i < |source| && used + source[i].cells <= column
      invariant 0 <= i <= |source| && at == Off(segs, row.first + i)
      invariant fit == Fit(segs, row.first + i, row.last, used, column)
      invariant lastStart == if i == 0 then row.scalarStart else Off(segs, row.first + i - 1)
    {
      assert source[i] == segs[row.first + i];
      used := used + source[i].cells;
      lastStart := at;
      at := at + source[i].scalars;
      i := i + 1;
    }
    assert fit == row.first + i by {
      assert i < |source| ==> source[i] == segs[row.first + i];
    }
    OffSame(segs, fit, row.last);
    if at == row.scalarEnd && wrapped {
      at := lastStart;
    }
  }

  lemma {:induction false} WrapStarts(segs: seq<Segment>, rows: seq<Row>, columns: nat, index: nat)
    requires WellCut(segs) && rows == AllRows(segs, columns) && index < |rows|
    ensures (index + 1 < |rows| && rows[index + 1].scalarStart == rows[index].scalarEnd) <==> Soft(segs, rows[index])
  {
    RowsLaid(segs, 0, 0, 0, columns);
    hide RowsFrom;
    assert RowSound(segs, rows[index], columns);
    if index + 1 < |rows| {
      assert Follows(segs, rows[index], rows[index + 1]) && RowSound(segs, rows[index + 1], columns);
      OffSame(segs, rows[index].last, rows[index + 1].first);
    }
  }
}
