/**
 Display rows of a transcript entry and the source ranges they show: whole lines of a plain body,
 in order, tile its text.
 */
module FlowRows {
  import opened Basics
  import opened SourceText
  import opened Wrapping
  import opened WrapRows
  import opened WrapLayouts
  import opened Navigation

  /** A row on its way to the terminal. Only body rows have a source range, relative to the body laid out. */
  datatype FlowRow =
    | SeparatorRow
    | LabelRow(entryId: string, index: nat)
    | BodyRow(entryId: string, cursor: Cursor, span: Span)

  function Limit(width: nat): nat { if width < 1 then 1 else width }

  /** The rows of one line; lines of plain bodies wrap at grapheme boundaries only. */
  function LineRows(g: Segmenter, id: string, text: string, spans: seq<Span>, block: nat,
                    width: nat): (rows: seq<FlowRow>)
    requires Segments(g) && spans == Spans(text, 0) && block < |spans|
    ensures rows != []
    ensures forall k :: 0 <= k < |rows| ==>
              rows[k].BodyRow? && rows[k].entryId == id && rows[k].cursor == Cursor(block, k)
  {
    SpansChained(text, 0);
    assert LineAt(text, spans, block);
    var wrapped := LineWrap(g, text, spans[block], width);
    seq(|wrapped|, k requires 0 <= k < |wrapped| =>
      BodyRow(id, Cursor(block, k), Span(spans[block].start + wrapped[k].start, spans[block].start + wrapped[k].end)))
  }

  function LineWrap(g: Segmenter, text: string, span: Span, width: nat): (rows: seq<Row>)
    requires Segments(g) && span.start <= span.end <= |text|
    ensures rows != []
  {
    var raw := SourceText.Slice(text, span);
    WrapAll(g, raw, 0, |raw|, Limit(width), false)
  }

  /** The rows of a body from line `block` on. */
  function RowsFromLine(g: Segmenter, id: string, text: string, block: nat, width: nat): (rows: seq<FlowRow>)
    requires Segments(g) && block <= |Spans(text, 0)|
    ensures block < |Spans(text, 0)| ==> rows != []
    decreases |Spans(text, 0)| - block
  {
    var spans := Spans(text, 0);
    if block == |spans| then []
    else LineRows(g, id, text, spans, block, width) + RowsFromLine(g, id, text, block + 1, width)
  }

  function PlainRows(g: Segmenter, id: string, text: string, width: nat): seq<FlowRow>
    requires Segments(g)
  {
    RowsFromLine(g, id, text, 0, width)
  }

  // ---------------------------------------------------------------- source ranges

  /** The source ranges of body rows, `base` being where the body laid out begins in the entry's text. */
  function Ranges(rows: seq<FlowRow>, base: nat): (ranges: seq<Span>)
  {
    if rows == [] then []
    else
      (if rows[0].BodyRow? then [Span(base + rows[0].span.start, base + rows[0].span.end)] else [])
      + Ranges(rows[1..], base)
  }

  lemma {:induction false} RangesConcat(a: seq<FlowRow>, b: seq<FlowRow>, base: nat)
    ensures Ranges(a + b, base) == Ranges(a, base) + Ranges(b, base)
    decreases |a|
  {
    if a == [] {
      assert a + b == b;
    } else {
      assert (a + b)[0] == a[0] && (a + b)[1..] == a[1..] + b;
      RangesConcat(a[1..], b, base);
      var first := if a[0].BodyRow? then [Span(base + a[0].span.start, base + a[0].span.end)] else [];
      assert first + (Ranges(a[1..], base) + Ranges(b, base)) == (first + Ranges(a[1..], base)) + Ranges(b, base);
    }
  }

  /** No line feed from one offset up to another. */
  predicate OneLine(text: string, start: nat, end: nat)
    requires end <= |text|
  {
    forall k :: start <= k < end ==> text[k] != '\n'
  }

  /** Ranges within lines, in order, each starting where the last ended, or past one line feed. */
  ghost predicate Tiles(text: string, ranges: seq<Span>, from: nat, to: nat)
    decreases |ranges|
  {
    if ranges == [] then from == to
    else
      var first := ranges[0];
      && first.start == from <= first.end <= |text| && OneLine(text, first.start, first.end)
      && (Tiles(text, ranges[1..], first.end, to)
          || (first.end < |text| && text[first.end] == '\n' && Tiles(text, ranges[1..], first.end + 1, to)))
  }

  lemma {:induction false} TilesConcat(text: string, a: seq<Span>, b: seq<Span>, from: nat, middle: nat, to: nat)
    requires Tiles(text, a, from, middle) && Tiles(text, b, middle, to)
    ensures Tiles(text, a + b, from, to)
    decreases |a|
  {
    if a == [] {
      assert a + b == b;
    } else {
      assert (a + b)[1..] == a[1..] + b;
      if Tiles(text, a[1..], a[0].end, middle) {
        TilesConcat(text, a[1..], b, a[0].end, middle, to);
      } else {
        TilesConcat(text, a[1..], b, a[0].end + 1, middle, to);
      }
    }
  }

  /** Past the line feed after the last range. */
  lemma {:induction false} TilesPastFeed(text: string, ranges: seq<Span>, from: nat, to: nat)
    requires Tiles(text, ranges, from, to) && ranges != [] && ranges[|ranges| - 1].end == to
    requires to < |text| && text[to] == '\n'
    ensures Tiles(text, ranges, from, to + 1)
    decreases |ranges|
  {
    if |ranges| > 1 {
      if Tiles(text, ranges[1..], ranges[0].end, to) {
        TilesPastFeed(text, ranges[1..], ranges[0].end, to);
      } else {
        TilesPastFeed(text, ranges[1..], ranges[0].end + 1, to);
      }
    } else {
      assert ranges[1..] == [];
    }
  }

  /** Appending to the text changes no range. */
  lemma {:induction false} TilesGrow(text: string, text': string, ranges: seq<Span>, from: nat, to: nat)
    requires Tiles(text, ranges, from, to) && text <= text'
    ensures Tiles(text', ranges, from, to)
    decreases |ranges|
  {
    if ranges != [] {
      var first := ranges[0];
      if Tiles(text, ranges[1..], first.end, to) {
        TilesGrow(text, text', ranges[1..], first.end, to);
      } else {
        TilesGrow(text, text', ranges[1..], first.end + 1, to);
      }
    }
  }

  function TimesShown(ranges: seq<Span>, at: nat): nat
    decreases |ranges|
  {
    if ranges == [] then 0
    else (if ranges[0].start <= at < ranges[0].end then 1 else 0) + TimesShown(ranges[1..], at)
  }

  /** Tiling shows exactly the characters in reach that are no line feeds, each once. */
  lemma {:induction false} TilesShowOnce(text: string, ranges: seq<Span>, from: nat, to: nat, at: nat)
    requires Tiles(text, ranges, from, to)
    ensures from <= to && (from <= |text| ==> to <= |text|)
    ensures TimesShown(ranges, at) == if from <= at < to <= |text| && text[at] != '\n' then 1 else 0
    decreases |ranges|
  {
    if ranges != [] {
      var first := ranges[0];
      if Tiles(text, ranges[1..], first.end, to) {
        TilesShowOnce(text, ranges[1..], first.end, to, at);
      } else {
        TilesShowOnce(text, ranges[1..], first.end + 1, to, at);
      }
    }
  }

  // ---------------------------------------------------------------- lines tile their text

  lemma {:induction false} HardWrapAbuts(g: Segmenter, raw: string, width: nat, i: nat)
    requires Segments(g) && i < |WrapAll(g, raw, 0, |raw|, width, false)|
    ensures var rows := WrapAll(g, raw, 0, |raw|, width, false);
            && rows[i].start == (if i == 0 then 0 else rows[i - 1].end)
            && rows[i].start <= rows[i].end <= |raw|
            && (i + 1 == |rows| ==> rows[i].end == |raw|)
  {
    hide RowsFrom;
    if raw != "" {
      HardRowsAbut(g, raw, 0, |raw|, width, i);
    }
  }

  /** Body rows that follow each other without a gap. */
  ghost predicate Abutting(rows: seq<FlowRow>, from: nat, to: nat)
    decreases |rows|
  {
    && rows != [] && rows[0].BodyRow?
    && rows[0].span.start == from <= rows[0].span.end
    && if |rows| == 1 then rows[0].span.end == to else Abutting(rows[1..], rows[0].span.end, to)
  }

  lemma {:induction false} AbuttingTiles(text: string, base: nat, rows: seq<FlowRow>, from: nat, to: nat)
    requires Abutting(rows, from, to) && base + to <= |text| && OneLine(text, base + from, base + to)
    ensures from <= to && Tiles(text, Ranges(rows, base), base + from, base + to)
    ensures Ranges(rows, base) != [] && Ranges(rows, base)[|Ranges(rows, base)| - 1].end == base + to
    decreases |rows|
  {
    var first, rest := [Span(base + rows[0].span.start, base + rows[0].span.end)], Ranges(rows[1..], base);
    assert Ranges(rows, base) == first + rest && (first + rest)[1..] == rest;
    if |rows| == 1 {
      assert rest == [];
    } else {
      AbuttingTiles(text, base, rows[1..], rows[0].span.end, to);
    }
  }

  /** One row of a line begins where the row above ends; the last ends with the line. */
  lemma {:induction false} LineRowAbuts(g: Segmenter, id: string, text: string, spans: seq<Span>, block: nat,
                                        width: nat, i: nat)
    requires Segments(g) && spans == Spans(text, 0) && block < |spans|
    requires i < |LineRows(g, id, text, spans, block, width)|
    ensures var rows := LineRows(g, id, text, spans, block, width);
            && rows[i].BodyRow?
            && rows[i].span.start == (if i == 0 then spans[block].start else rows[i - 1].span.end)
            && rows[i].span.start <= rows[i].span.end
            && (i + 1 == |rows| ==> rows[i].span.end == spans[block].end)
  {
    hide Spans, LineAt, WrapAll, Segments;
    SpansChained(text, 0);
    assert LineAt(text, spans, block);
    assert spans[block].end <= |text| && spans[block].start <= spans[block].end by { LineInside(text, spans, block); }
    HardWrapAbuts(g, SourceText.Slice(text, spans[block]), Limit(width), i);
  }

  lemma {:induction false} LineInside(text: string, spans: seq<Span>, block: nat)
    requires block < |spans| && LineAt(text, spans, block)
    ensures spans[block].start <= spans[block].end <= |text|
  {
  }

  lemma {:induction false} LineAbuts(g: Segmenter, id: string, text: string, spans: seq<Span>, block: nat, width: nat,
                                     from: nat)
    requires Segments(g) && spans == Spans(text, 0) && block < |spans|
    requires from < |LineRows(g, id, text, spans, block, width)|
    ensures var rows := LineRows(g, id, text, spans, block, width);
            Abutting(rows[from..], if from == 0 then spans[block].start else rows[from - 1].span.end, spans[block].end)
    decreases |LineRows(g, id, text, spans, block, width)| - from
  {
    hide Spans, LineAt, LineRows, Segments;
    var rows := LineRows(g, id, text, spans, block, width);
    LineRowAbuts(g, id, text, spans, block, width, from);
    if from + 1 < |rows| {
      LineAbuts(g, id, text, spans, block, width, from + 1);
      assert rows[from..][1..] == rows[from + 1..];
    }
  }

  lemma {:induction false} LineWithin(text: string, base: nat, block: nat)
    requires base <= |text| && block < |Spans(text[base..], 0)|
    ensures var span := Spans(text[base..], 0)[block];
            span.start <= span.end && base + span.end <= |text| && OneLine(text, base + span.start, base + span.end)
  {
    hide Spans;
    var body := text[base..];
    var spans := Spans(body, 0);
    SpansChained(body, 0);
    assert LineAt(body, spans, block);
    forall k | base + spans[block].start <= k < base + spans[block].end ensures text[k] != '\n' {
      assert text[k] == body[k - base];
    }
  }

  /** The rows of one line tile it. */
  lemma {:induction false} LineTiles(g: Segmenter, id: string, text: string, base: nat, block: nat, width: nat)
    requires Segments(g) && base <= |text| && block < |Spans(text[base..], 0)|
    ensures var spans := Spans(text[base..], 0);
            var ranges := Ranges(LineRows(g, id, text[base..], spans, block, width), base);
            && Tiles(text, ranges, base + spans[block].start, base + spans[block].end)
            && ranges != [] && ranges[|ranges| - 1].end == base + spans[block].end
  {
    hide Spans, LineAt, LineRows, Tiles, Ranges, Abutting, OneLine, Segments;
    var body := text[base..];
    var spans := Spans(body, 0);
    LineWithin(text, base, block);
    var rows := LineRows(g, id, body, spans, block, width);
    LineAbuts(g, id, body, spans, block, width, 0);
    assert rows[0..] == rows;
    AbuttingTiles(text, base, rows, spans[block].start, spans[block].end);
  }

  /** Where the rows from a line on begin: the line's start, or the end of the body past the last line. */
  function LineStart(body: string, block: nat): nat
    requires block <= |Spans(body, 0)|
  {
    if block < |Spans(body, 0)| then Spans(body, 0)[block].start else |body|
  }

  lemma {:induction false} TilesCompose(text: string, base: nat, line: seq<FlowRow>, rest: seq<FlowRow>, later: nat,
                                        from: nat, middle: nat, to: nat)
    requires later <= |rest|
    requires Tiles(text, Ranges(line, base), from, middle) && Tiles(text, Ranges(rest[..later], base), middle, to)
    ensures Tiles(text, Ranges((line + rest)[..|line| + later], base), from, to)
    ensures (line + rest)[|line| + later..] == rest[later..]
  {
    hide Tiles, Ranges;
    assert (line + rest)[..|line| + later] == line + rest[..later];
    RangesConcat(line, rest[..later], base);
    TilesConcat(text, Ranges(line, base), Ranges(rest[..later], base), from, middle, to);
  }

  /** One line with the line feed after it. */
  lemma {:induction false} LineReaches(g: Segmenter, id: string, text: string, base: nat, block: nat, width: nat)
    requires Segments(g) && base <= |text| && block < |Spans(text[base..], 0)|
    ensures var spans := Spans(text[base..], 0);
            Tiles(text, Ranges(LineRows(g, id, text[base..], spans, block, width), base),
                  base + spans[block].start, base + LineStart(text[base..], block + 1))
  {
    hide Spans, LineEnd, LineRows, LineStart, Tiles, Ranges;
    var body := text[base..];
    var spans := Spans(body, 0);
    FeedFollows(body, block);
    LineTiles(g, id, text, base, block, width);
    var ranges := Ranges(LineRows(g, id, body, spans, block, width), base);
    if block + 1 < |spans| {
      assert text[base + spans[block].end] == body[spans[block].end];
      TilesPastFeed(text, ranges, base + spans[block].start, base + spans[block].end);
    }
  }

  lemma {:induction false} FeedFollows(body: string, block: nat)
    requires block < |Spans(body, 0)|
    ensures var spans := Spans(body, 0);
            && spans[block].end <= |body|
            && (if block + 1 < |spans| then
                  && LineStart(body, block + 1) == spans[block].end + 1
                  && spans[block].end < |body| && body[spans[block].end] == '\n'
                else spans[block].end == |body| == LineStart(body, block + 1))
  {
    SpansChained(body, 0);
    assert LineAt(body, Spans(body, 0), block);
  }

  lemma {:induction false} LineFirst(g: Segmenter, id: string, body: string, block: nat, width: nat)
    requires Segments(g) && block < |Spans(body, 0)|
    ensures RowsFromLine(g, id, body, block, width)
         == LineRows(g, id, body, Spans(body, 0), block, width) + RowsFromLine(g, id, body, block + 1, width)
    ensures LineStart(body, block) == Spans(body, 0)[block].start
  {
    hide LineRows, Spans, LineEnd;
  }

  lemma {:induction false} NoRows(text: string, at: nat, base: nat)
    ensures Tiles(text, Ranges([], base), at, at)
  {
  }

  /** The rows of the lines from `block` up to `stop` tile the source between their starts. */
  lemma {:induction false} LinesTile(g: Segmenter, id: string, text: string, base: nat, block: nat, stop: nat,
                                     width: nat)
    returns (count: nat)
    requires Segments(g) && base <= |text| && block <= stop <= |Spans(text[base..], 0)|
    ensures var rows := RowsFromLine(g, id, text[base..], block, width);
            && count <= |rows| && rows[count..] == RowsFromLine(g, id, text[base..], stop, width)
            && Tiles(text, Ranges(rows[..count], base), base + LineStart(text[base..], block),
                     base + LineStart(text[base..], stop))
    decreases stop - block
  {
    hide LineRows, Spans, LineEnd, LineStart, RowsFromLine, Tiles, Ranges;
    var body := text[base..];
    if block == stop {
      count := 0;
      NoRows(text, base + LineStart(body, block), base);
    } else {
      var line := LineRows(g, id, body, Spans(body, 0), block, width);
      var rest := RowsFromLine(g, id, body, block + 1, width);
      LineFirst(g, id, body, block, width);
      LineReaches(g, id, text, base, block, width);
      var later := LinesTile(g, id, text, base, block + 1, stop, width);
      count := |line| + later;
      TilesCompose(text, base, line, rest, later, base + LineStart(body, block),
                   base + LineStart(body, block + 1), base + LineStart(body, stop));
    }
  }

  // ---------------------------------------------------------------- finding a line's first row again

  /** `findIndex` of a cursor; the number of rows if there is none. */
  function FindCursor(rows: seq<FlowRow>, cursor: Cursor): (at: nat)
    ensures at <= |rows|
  {
    if rows == [] then 0
    else if rows[0].BodyRow? && rows[0].cursor == cursor then 0
    else 1 + FindCursor(rows[1..], cursor)
  }

  lemma {:induction false} FindSkips(first: seq<FlowRow>, rest: seq<FlowRow>, cursor: Cursor)
    requires forall k :: 0 <= k < |first| ==> !(first[k].BodyRow? && first[k].cursor == cursor)
    ensures FindCursor(first + rest, cursor) == |first| + FindCursor(rest, cursor)
    decreases |first|
  {
    if first == [] {
      assert first + rest == rest;
    } else {
      assert (first + rest)[1..] == first[1..] + rest;
      FindSkips(first[1..], rest, cursor);
    }
  }

  lemma {:induction false} FindLine(g: Segmenter, id: string, body: string, block: nat, target: nat, width: nat)
    requires Segments(g) && block <= target < |Spans(body, 0)|
    ensures var rows := RowsFromLine(g, id, body, block, width);
            rows[FindCursor(rows, Cursor(target, 0))..] == RowsFromLine(g, id, body, target, width)
    decreases target - block
  {
    hide Spans, LineRows, Segments;
    var spans := Spans(body, 0);
    var line := LineRows(g, id, body, spans, block, width);
    var rest := RowsFromLine(g, id, body, block + 1, width);
    var rows := RowsFromLine(g, id, body, block, width);
    assert rows == line + rest;
    if block == target {
      assert rows[0] == line[0];
    } else {
      FindSkips(line, rest, Cursor(target, 0));
      FindLine(g, id, body, block + 1, target, width);
      assert rows[|line| + FindCursor(rest, Cursor(target, 0))..] == rest[FindCursor(rest, Cursor(target, 0))..];
    }
  }

  // ---------------------------------------------------------------- sealing whole lines

  /** The first row at or after `count` that is not in `block`. */
  function SealBlock(rows: seq<FlowRow>, count: nat, block: nat): (sealed: nat)
    requires count <= |rows|
    ensures count <= sealed <= |rows|
    decreases |rows| - count
  {
    if count < |rows| && rows[count].BodyRow? && rows[count].cursor.block == block
    then SealBlock(rows, count + 1, block)
    else count
  }

  lemma {:induction false} SealIs(rows: seq<FlowRow>, count: nat, block: nat, stop: nat)
    requires count <= stop <= |rows|
    requires forall k :: count <= k < stop ==> rows[k].BodyRow? && rows[k].cursor.block == block
    requires stop < |rows| ==> !(rows[stop].BodyRow? && rows[stop].cursor.block == block)
    ensures SealBlock(rows, count, block) == stop
    decreases stop - count
  {
    if count < stop {
      SealIs(rows, count + 1, block, stop);
    }
  }

  lemma {:induction false} RestStarts(g: Segmenter, id: string, body: string, block: nat, width: nat)
    requires Segments(g) && block <= |Spans(body, 0)|
    ensures var rows := RowsFromLine(g, id, body, block, width);
            rows != [] ==> rows[0].BodyRow? && rows[0].cursor == Cursor(block, 0)
  {
    hide Spans, LineRows;
    if block < |Spans(body, 0)| {
      var line := LineRows(g, id, body, Spans(body, 0), block, width);
      assert RowsFromLine(g, id, body, block, width)[0] == line[0];
    }
  }

  lemma {:induction false} EmptyRest(g: Segmenter, id: string, body: string, width: nat)
    requires Segments(g)
    ensures RowsFromLine(g, id, body, |Spans(body, 0)|, width) == []
  {
  }

  lemma {:induction false} SealLine(labels: seq<FlowRow>, line: seq<FlowRow>, rest: seq<FlowRow>, block: nat,
                                    count: nat)
    requires |labels| < count <= |labels| + |line|
    requires forall k :: 0 <= k < |line| ==> line[k].BodyRow? && line[k].cursor.block == block
    requires rest != [] ==> rest[0].BodyRow? && rest[0].cursor.block != block
    ensures var rows := labels + (line + rest);
            && rows[count - 1].BodyRow? && rows[count - 1].cursor.block == block
            && rows[SealBlock(rows, count, block)..] == rest
  {
    var rows := labels + (line + rest);
    var end := |labels| + |line|;
    assert forall k :: |labels| <= k < end ==> rows[k] == line[k - |labels|];
    assert rest != [] ==> rows[end] == rest[0];
    SealIs(rows, count, block, end);
    assert rows[end..] == rest;
  }

  /** Sealing after some rows of whole lines leaves whole lines. `labels` are rows printed before the body. */
  lemma {:induction false} SealLeavesLines(g: Segmenter, id: string, body: string, labels: seq<FlowRow>, block: nat,
                                           width: nat, count: nat)
    returns (stop: nat)
    requires Segments(g) && block <= |Spans(body, 0)|
    requires |labels| < count <= |labels| + |RowsFromLine(g, id, body, block, width)|
    ensures block < stop <= |Spans(body, 0)|
    ensures var rows := labels + RowsFromLine(g, id, body, block, width);
            && rows[count - 1].BodyRow?
            && var sealed := SealBlock(rows, count, rows[count - 1].cursor.block);
               rows[sealed..] == RowsFromLine(g, id, body, stop, width)
    decreases |Spans(body, 0)| - block
  {
    hide LineRows, Spans, LineEnd, SealBlock, RowsFromLine, LineStart;
    if block == |Spans(body, 0)| {
      EmptyRest(g, id, body, width);
      assert false;
    }
    var line := LineRows(g, id, body, Spans(body, 0), block, width);
    var rest := RowsFromLine(g, id, body, block + 1, width);
    var rows := labels + (line + rest);
    LineFirst(g, id, body, block, width);
    RestStarts(g, id, body, block + 1, width);
    if count <= |labels| + |line| {
      stop := block + 1;
      var end := |labels| + |line|;
      SealLine(labels, line, rest, block, count);
    } else {
      stop := SealLeavesLines(g, id, body, labels + line, block + 1, width, count);
      assert (labels + line) + rest == rows;
    }
  }
}
