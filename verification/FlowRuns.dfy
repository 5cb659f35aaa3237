/**
 Exactly-once output. Whatever drains, widths, capacities and resizes a plain body goes through while
 its text grows, the ranges printed for it tile its text from the start: no character twice, none but
 line feeds left out, and all of it once the body is settled.
 */
module FlowRuns {
  import opened Basics
  import opened SourceText
  import opened Wrapping
  import opened WrapRows
  import opened WrapLayouts
  import opened Navigation
  import opened Conversation
  import opened FlowRows
  import opened ConversationFlows

  // ---------------------------------------------------------------- what is recorded for one entry

  function Of(pieces: seq<Piece>, id: string): (ranges: seq<Span>) {
    if pieces == [] then []
    else (if pieces[0].id == id then [pieces[0].span] else []) + Of(pieces[1..], id)
  }

  lemma {:induction false} OfConcat(a: seq<Piece>, b: seq<Piece>, id: string)
    ensures Of(a + b, id) == Of(a, id) + Of(b, id)
    decreases |a|
  {
    if a == [] {
      assert a + b == b;
    } else {
      assert (a + b)[0] == a[0] && (a + b)[1..] == a[1..] + b;
      OfConcat(a[1..], b, id);
      var first := if a[0].id == id then [a[0].span] else [];
      assert first + (Of(a[1..], id) + Of(b, id)) == (first + Of(a[1..], id)) + Of(b, id);
    }
  }

  lemma {:induction false} OfTagged(owner: string, ranges: seq<Span>, id: string)
    ensures Of(Tagged(owner, ranges), id) == if owner == id then ranges else []
    decreases |ranges|
  {
    if ranges != [] {
      OfTagged(owner, ranges[1..], id);
      assert Tagged(owner, ranges)[1..] == Tagged(owner, ranges[1..]);
    }
  }

  /** An entry shown as a plain body. */
  predicate PlainBody(entry: Entry) {
    entry.IsBody() && !entry.IsMarkdown()
  }

  /** The line an unfinished receipt resumes at; without a cursor, the first of what is laid out now. */
  function ResumeLine(r: Receipt): nat {
    if r.cursor.Some? then r.cursor.value.block else 0
  }

  ghost predicate Resumes(r: Receipt, text: string)
    requires r.base <= |text|
  {
    && (r.cursor.Some? ==> r.cursor.value.row == 0)
    && ResumeLine(r) < |Spans(text[r.base..], 0)|
    && r.offset == r.base + LineStart(text[r.base..], ResumeLine(r))
  }

  /** What a receipt says about the ranges printed so far of a text. */
  ghost predicate Kept(r: Receipt, ranges: seq<Span>, text: string) {
    && r.text == text && r.base <= |text|
    && if r.complete then r.labelPrinted && Tiles(text, ranges, 0, |text|)
       else if r.labelPrinted then Resumes(r, text) && Tiles(text, ranges, 0, r.offset)
       else r.base == 0 && ranges == []
  }

  /** Rows ready to print: label rows, then whole lines that continue what was printed. */
  ghost predicate Ready(look: Look, r: Receipt, entry: Entry, rows: seq<FlowRow>, ranges: seq<Span>, width: nat,
                        labels: nat, line: nat)
  {
    && Segments(look.g)
    && r.text == entry.text && r.base <= |entry.text| && !r.complete
    && line < |Spans(entry.text[r.base..], 0)|
    && labels <= |rows| && (forall k :: 0 <= k < labels ==> !rows[k].BodyRow?)
    && rows[labels..] == RowsFromLine(look.g, entry.id, entry.text[r.base..], line, width)
    && Tiles(entry.text, ranges, 0, r.base + LineStart(entry.text[r.base..], line))
    && (if r.labelPrinted then Resumes(r, entry.text) && line == ResumeLine(r)
        else line == 0 && r.base == 0 && ranges == [])
  }

  // ---------------------------------------------------------------- preparing

  lemma {:induction false} LabelsBefore(look: Look, entry: Entry, base: nat, width: nat, separated: bool)
    returns (labels: seq<FlowRow>)
    requires Segments(look.g) && PlainBody(entry) && base <= |entry.text|
    ensures forall k :: 0 <= k < |labels| ==> !labels[k].BodyRow?
    ensures EntryRows(look, entry, base, width, separated)
         == labels + RowsFromLine(look.g, entry.id, entry.text[base..], 0, width)
  {
    hide RowsFromLine;
    labels := (if separated then [SeparatorRow] else []) + LabelRows(look, entry, width);
  }

  lemma {:induction false} SameLine(text: string, text': string, block: nat)
    requires text <= text' && block < |Spans(text, 0)|
    ensures block < |Spans(text', 0)| && Spans(text', 0)[block].start == Spans(text, 0)[block].start
  {
    var suffix := text'[|text|..];
    assert text' == text + suffix;
    var spans := Spans(text, 0);
    SpansOfAppend(text, suffix, 0);
    hide Spans, LineEnd;
    var last := spans[|spans| - 1].start;
    StartsAt(text', last);
  }

  lemma {:induction false} StartsAt(text: string, start: nat)
    requires start <= |text|
    ensures Spans(text, start)[0].start == start
  {
  }

  lemma {:induction false} SeekLineStart(g: Segmenter, text: string, block: nat, width: nat)
    requires Segments(g) && block < |Spans(text, 0)|
    ensures SeekPlain(g, text, Spans(text, 0)[block].start, width) == Cursor(block, 0)
  {
    var spans := Spans(text, 0);
    SpansChained(text, 0);
    assert LineAt(text, spans, block);
    LineOfStart(text, spans, block, 0);
  }

  lemma {:induction false} LineOfStart(text: string, spans: seq<Span>, block: nat, from: nat)
    requires Chained(text, spans, 0) && from <= block < |spans|
    ensures LineOf(spans, spans[block].start, from) == block
    decreases block - from
  {
    assert LineAt(text, spans, block);
    if from < block {
      ChainedAscending(text, spans, 0, from, block);
      LineOfStart(text, spans, block, from + 1);
    }
  }

  /** From a line's first row on, the rows are the rows of that line and the lines after it. */
  lemma {:induction false} RowsAtLine(g: Segmenter, id: string, body: string, labels: seq<FlowRow>, line: nat,
                                      width: nat)
    requires Segments(g) && line < |Spans(body, 0)| && forall k :: 0 <= k < |labels| ==> !labels[k].BodyRow?
    ensures var rows := labels + RowsFromLine(g, id, body, 0, width);
            rows[FindCursor(rows, Cursor(line, 0))..] == RowsFromLine(g, id, body, line, width)
  {
    hide RowsFromLine, Spans, FindCursor;
    var rest := RowsFromLine(g, id, body, 0, width);
    FindSkips(labels, rest, Cursor(line, 0));
    FindLine(g, id, body, 0, line, width);
  }

  /** The line a receipt resumes at, read in a text that has grown. */
  lemma {:induction false} ResumesGrown(r: Receipt, text: string, text': string)
    requires r.base <= |text| && text <= text' && Resumes(r, text)
    ensures Resumes(r, text')
  {
    hide Spans, LineStart;
    assert text[r.base..] <= text'[r.base..];
    var line := ResumeLine(r);
    SameLine(text[r.base..], text'[r.base..], line);
    LineStartIs(text[r.base..], line);
    LineStartIs(text'[r.base..], line);
  }

  /** A receipt that is opened for more text continues where it stopped. */
  ghost predicate Continues(r: Receipt, ranges: seq<Span>, text: string) {
    && r.base <= |text| && !r.complete
    && if r.labelPrinted then Resumes(r, text) && Tiles(text, ranges, 0, r.offset)
       else r.base == 0 && ranges == []
  }

  lemma {:induction false} OpeningContinues(frontier: Option<Position>, r: Receipt, entry: Entry, width: nat,
                                            ranges: seq<Span>, text: string)
    requires entry.IsBody() && Kept(r, ranges, text) && text <= entry.text
    ensures match Opening(frontier, Some(r), entry, width)
            case None => r.complete && entry.text == text
            case Some(opening) => Continues(opening, ranges, entry.text) && opening.position == r.position
  {
    hide Spans, Tiles, LineStart;
    if r.complete {
      FirstLine(entry.text[|text|..]);
      TilesGrow(text, entry.text, ranges, 0, |text|);
    } else if r.labelPrinted {
      ResumesGrown(r, text, entry.text);
      TilesGrow(text, entry.text, ranges, 0, r.offset);
    }
  }

  /** The rows from where a receipt resumes. */
  lemma {:induction false} StartsAtLine(look: Look, r: Receipt, entry: Entry, width: nat, labelChanged: bool,
                                        labels: seq<FlowRow>)
    requires Segments(look.g) && PlainBody(entry) && r.base <= |entry.text| && Resumes(r, entry.text) && r.labelPrinted
    requires forall k :: 0 <= k < |labels| ==> !labels[k].BodyRow?
    ensures var rows := labels + RowsFromLine(look.g, entry.id, entry.text[r.base..], 0, width);
            rows[StartAt(look, r, entry, rows, width, labelChanged)..]
            == RowsFromLine(look.g, entry.id, entry.text[r.base..], ResumeLine(r), width)
  {
    hide Spans, RowsFromLine, FindCursor, LineStart, SeekPlain;
    var body := entry.text[r.base..];
    var line := ResumeLine(r);
    LineStartIs(body, line);
    FirstLine(body);
    SeekLineStart(look.g, body, line, width);
    RowsAtLine(look.g, entry.id, body, labels, line, width);
  }

  lemma {:induction false} ContinuesReady(look: Look, opening: Receipt, r: Receipt, entry: Entry, width: nat,
                                          separated: bool, labelChanged: bool, ranges: seq<Span>)
    returns (labels: nat)
    requires Segments(look.g) && PlainBody(entry) && Continues(opening, ranges, entry.text)
    requires r == opening.(title := entry.title, text := entry.text, width := width)
    ensures var rows := EntryRows(look, entry, opening.base, width, separated);
            Ready(look, r, entry, rows[StartAt(look, opening, entry, rows, width, labelChanged)..], ranges, width,
                  labels,
                  if r.labelPrinted then ResumeLine(r) else 0)
  {
    hide Spans, RowsFromLine, FindCursor, EntryRows, LineStart, SeekBody, Tiles;
    var before := LabelsBefore(look, entry, opening.base, width, separated);
    var body := entry.text[opening.base..];
    FirstLine(body);
    if opening.labelPrinted {
      labels := 0;
      StartsAtLine(look, opening, entry, width, labelChanged, before);
    } else {
      labels := |before|;
      NoTiles(entry.text);
      assert entry.text[0..] == entry.text;
    }
  }

  lemma {:induction false} PreparedReady(look: Look, frontier: Option<Position>, r: Receipt, entry: Entry, width: nat,
                                         separated: bool, ranges: seq<Span>, text: string)
    returns (labels: nat, line: nat)
    requires Segments(look.g) && PlainBody(entry) && Kept(r, ranges, text) && text <= entry.text
    ensures match Prepared(look, frontier, Some(r), entry, width, separated)
            case None => r.complete && entry.text == text
            case Some(pair) => Ready(look, pair.0, entry, pair.1, ranges, width, labels, line)
                               && pair.0.position == r.position
  {
    hide Opening, StartAt, EntryRows, Ready, Kept, Resumes, Tiles, Spans, LineStart, RowsFromLine, Segments;
    OpeningContinues(frontier, r, entry, width, ranges, text);
    labels, line := 0, 0;
    match Opening(frontier, Some(r), entry, width)
    case None =>
    case Some(opening) =>
      line := if opening.labelPrinted then ResumeLine(opening) else 0;
      labels := ContinuesReady(look, opening, opening.(title := entry.title, text := entry.text, width := width), entry,
                               width, separated, r.title != entry.title, ranges);
  }

  lemma {:induction false} NoTiles(text: string)
    ensures Tiles(text, [], 0, 0)
  {
  }

  lemma {:induction false} FirstLine(body: string)
    ensures |Spans(body, 0)| > 0 && Spans(body, 0)[0].start == 0 && LineStart(body, 0) == 0
  {
  }

  lemma {:induction false} LineStartIs(body: string, line: nat)
    requires line < |Spans(body, 0)|
    ensures LineStart(body, line) == Spans(body, 0)[line].start
  {
  }

  lemma {:induction false} NewReady(look: Look, frontier: Option<Position>, entry: Entry, width: nat, separated: bool)
    returns (labels: nat)
    requires Segments(look.g) && PlainBody(entry)
    ensures match Prepared(look, frontier, None, entry, width, separated)
            case None => entry.position.Some? && frontier.Some?
                         && ComparePositions(entry.position.value, frontier.value) <= 0
            case Some(pair) => Ready(look, pair.0, entry, pair.1, [], width, labels,
                                     0) && pair.0.position == entry.position
  {
    hide Spans, RowsFromLine, FindCursor, EntryRows;
    var before := LabelsBefore(look, entry, 0, width, separated);
    labels := |before|;
    assert entry.text[0..] == entry.text;
    FirstLine(entry.text);
  }

  // ---------------------------------------------------------------- printing

  /** Printing some rows leaves label rows and whole lines. */
  lemma {:induction false} PrintLeavesLines(look: Look, r: Receipt, entry: Entry, rows: seq<FlowRow>, ranges: seq<Span>,
                                            width: nat, labels: nat, line: nat, mutable: bool, capacity: nat)
    returns (left: nat, stop: nat)
    requires Ready(look, r, entry, rows, ranges, width, labels, line)
    ensures var count := PrintCount(rows, mutable, capacity);
            && line <= stop <= |Spans(entry.text[r.base..], 0)|
            && count + left <= |rows|
            && (forall k :: count <= k < count + left ==> !rows[k].BodyRow?)
            && rows[count + left..] == RowsFromLine(look.g, entry.id, entry.text[r.base..], stop, width)
            && (left > 0 || count <= labels ==> stop == line && count + left == labels)
            && (count > labels ==> left == 0)
            && (!mutable ==> count == |rows|)
  {
    hide Spans, RowsFromLine, Tiles, LineStart, SealBlock, Segments, Resumes;
    var count := PrintCount(rows, mutable, capacity);
    var body := entry.text[r.base..];
    var before, lines := rows[..labels], rows[labels..];
    assert rows == before + lines;
    var wanted: nat := if !mutable then |rows| else if |rows| > capacity then |rows| - capacity else 0;
    if wanted <= labels {
      left, stop := labels - count, line;
    } else {
      left := 0;
      if mutable {
        stop := SealLeavesLines(look.g, entry.id, body, before, line, width, wanted);
      } else {
        stop := |Spans(body, 0)|;
        NoLines(look.g, entry.id, body, width);
      }
    }
  }

  lemma {:induction false} NoLines(g: Segmenter, id: string, body: string, width: nat)
    requires Segments(g)
    ensures RowsFromLine(g, id, body, |Spans(body, 0)|, width) == []
  {
  }

  lemma {:induction false} SomeLines(g: Segmenter, id: string, body: string, line: nat, width: nat)
    requires Segments(g) && line < |Spans(body, 0)|
    ensures RowsFromLine(g, id, body, line, width) != []
    ensures RowsFromLine(g, id, body, line, width)[0].BodyRow?
    ensures RowsFromLine(g, id, body, line, width)[0].cursor == Cursor(line, 0)
    ensures RowsFromLine(g, id, body, line, width)[0].span.start == LineStart(body, line)
  {
    var spans := Spans(body, 0);
    var first := LineRows(g, id, body, spans, line, width);
    assert RowsFromLine(g, id, body, line, width)[0] == first[0];
    SpansChained(body, 0);
    assert LineAt(body, spans, line);
    HardWrapAbuts(g, SourceText.Slice(body, spans[line]), Limit(width), 0);
  }

  lemma {:induction false} NoRanges(rows: seq<FlowRow>, base: nat)
    requires forall k :: 0 <= k < |rows| ==> !rows[k].BodyRow?
    ensures Ranges(rows, base) == []
    decreases |rows|
  {
    if rows != [] {
      NoRanges(rows[1..], base);
    }
  }

  lemma {:induction false} RangesSkip(labels: seq<FlowRow>, rest: seq<FlowRow>, base: nat)
    requires forall k :: 0 <= k < |labels| ==> !labels[k].BodyRow?
    ensures Ranges(labels + rest, base) == Ranges(rest, base)
  {
    hide Ranges;
    RangesConcat(labels, rest, base);
    NoRanges(labels, base);
    assert [] + Ranges(rest, base) == Ranges(rest, base);
  }

  lemma {:induction false} FirstBodyIs(labels: seq<FlowRow>, rest: seq<FlowRow>)
    requires forall k :: 0 <= k < |labels| ==> !labels[k].BodyRow?
    requires rest == [] || rest[0].BodyRow?
    ensures FirstBody(labels + rest) == |labels|
    decreases |labels|
  {
    if labels == [] {
      assert labels + rest == rest;
    } else {
      assert (labels + rest)[1..] == labels[1..] + rest;
      FirstBodyIs(labels[1..], rest);
    }
  }

  /** The ranges printed and the ranges left continue the tiling, to where the rows left begin and to the end. */
  lemma {:induction false} PrintTiles(look: Look, r: Receipt, entry: Entry, rows: seq<FlowRow>, ranges: seq<Span>,
                                      width: nat, labels: nat, line: nat, count: nat, left: nat, stop: nat)
    requires Ready(look, r, entry, rows, ranges, width, labels, line)
    requires line <= stop <= |Spans(entry.text[r.base..], 0)| && count + left <= |rows|
    requires forall k :: count <= k < count + left ==> !rows[k].BodyRow?
    requires rows[count + left..] == RowsFromLine(look.g, entry.id, entry.text[r.base..], stop, width)
    requires left > 0 || count <= labels ==> stop == line && count + left == labels
    requires count > labels ==> left == 0
    ensures var printed, tail := Ranges(rows[..count], r.base), Ranges(rows[count..], r.base);
            && Tiles(entry.text, ranges + printed, 0, r.base + LineStart(entry.text[r.base..], stop))
            && Tiles(entry.text, ranges + printed + tail, 0, |entry.text|)
            && (count <= labels ==> printed == [])
  {
    hide Spans, LineEnd, RowsFromLine, Tiles, LineStart, Ranges, Segments;
    var text, base := entry.text, r.base;
    var body := text[base..];
    var middle := base + LineStart(body, stop);
    var printed, tail := Ranges(rows[..count], base), Ranges(rows[count..], base);
    PrintedTile(look, text, entry.id, base, rows, width, labels, line, count, stop, left);
    RestTiles(look.g, entry.id, text, base, stop, width);
    RangesSkip(rows[count..count + left], rows[count + left..], base);
    assert rows[count..] == rows[count..count + left] + rows[count + left..];
    TilesConcat(text, ranges, printed, 0, base + LineStart(body, line), middle);
    TilesConcat(text, ranges + printed, tail, 0, middle, |text|);
  }

  lemma {:induction false} RestTiles(g: Segmenter, id: string, text: string, base: nat, stop: nat, width: nat)
    requires Segments(g) && base <= |text| && stop <= |Spans(text[base..], 0)|
    ensures Tiles(text, Ranges(RowsFromLine(g, id, text[base..], stop, width), base),
                  base + LineStart(text[base..], stop), |text|)
  {
    hide Spans, LineEnd, RowsFromLine, Tiles, LineStart, Ranges, Segments;
    var body := text[base..];
    var last := |Spans(body, 0)|;
    var rows := RowsFromLine(g, id, body, stop, width);
    var count := LinesTile(g, id, text, base, stop, last, width);
    NoLines(g, id, body, width);
    assert rows[..count] == rows;
    PastLast(body);
  }

  lemma {:induction false} PastLast(body: string)
    ensures LineStart(body, |Spans(body, 0)|) == |body|
  {
  }

  lemma {:induction false} PrintedTile(look: Look, text: string, id: string, base: nat, rows: seq<FlowRow>, width: nat,
                                       labels: nat, line: nat, count: nat, stop: nat, left: nat)
    requires Segments(look.g) && base <= |text| && line < |Spans(text[base..], 0)|
    requires labels <= |rows| && (forall k :: 0 <= k < labels ==> !rows[k].BodyRow?)
    requires rows[labels..] == RowsFromLine(look.g, id, text[base..], line, width)
    requires line <= stop <= |Spans(text[base..], 0)| && count + left <= |rows|
    requires rows[count + left..] == RowsFromLine(look.g, id, text[base..], stop, width)
    requires left > 0 || count <= labels ==> stop == line && count + left == labels
    requires count > labels ==> left == 0
    ensures var printed := Ranges(rows[..count], base);
            && Tiles(text, printed, base + LineStart(text[base..], line), base + LineStart(text[base..], stop))
            && (count <= labels ==> printed == [])
  {
    hide Spans, LineEnd, RowsFromLine, Tiles, LineStart, Ranges;
    var body := text[base..];
    if count <= labels {
      NoRanges(rows[..count], base);
      TilesNothing(text, base + LineStart(body, line));
    } else {
      var lines := rows[labels..];
      var length := LinesTile(look.g, id, text, base, line, stop, width);
      assert |lines[length..]| == |rows[count..]|;
      assert length == count - labels;
      assert rows[..count] == rows[..labels] + lines[..length];
      RangesSkip(rows[..labels], lines[..length], base);
    }
  }

  lemma {:induction false} TilesNothing(text: string, at: nat)
    ensures Tiles(text, [], at, at)
  {
  }

  /** The first body row left begins the line printing stopped at; past the last line no row is left. */
  lemma {:induction false} RemainingAt(look: Look, r: Receipt, entry: Entry, rows: seq<FlowRow>, ranges: seq<Span>,
                                       width: nat, labels: nat, line: nat, count: nat, left: nat, stop: nat)
    requires Ready(look, r, entry, rows, ranges, width, labels, line)
    requires line <= stop <= |Spans(entry.text[r.base..], 0)| && count + left <= |rows|
    requires forall k :: count <= k < count + left ==> !rows[k].BodyRow?
    requires rows[count + left..] == RowsFromLine(look.g, entry.id, entry.text[r.base..], stop, width)
    requires left > 0 || count <= labels ==> stop == line && count + left == labels
    ensures var body, remaining := entry.text[r.base..], rows[count..];
            if stop < |Spans(body, 0)| then
              && FirstBody(remaining) == left < |remaining|
              && remaining[left].cursor == Cursor(stop, 0) && remaining[left].span.start == LineStart(body, stop)
            else remaining == [] && count > 0
  {
    hide Spans, RowsFromLine, Tiles, LineStart, FirstBody, Resumes, Segments;
    var body := entry.text[r.base..];
    if stop < |Spans(body, 0)| {
      SomeLines(look.g, entry.id, body, stop, width);
      FirstBodyIs(rows[count..count + left], rows[count + left..]);
      assert rows[count..] == rows[count..count + left] + rows[count + left..];
      assert rows[count..][left] == rows[count + left..][0];
    } else {
      NoLines(look.g, entry.id, body, width);
      assert left == 0 && count > 0 by { SomeLines(look.g, entry.id, body, line, width); }
    }
  }

  /** Printing keeps the receipt true, and with the rows left live the whole text is shown. */
  lemma {:induction false} PrintedKept(look: Look, r: Receipt, entry: Entry, rows: seq<FlowRow>, ranges: seq<Span>,
                                       width: nat, labels: nat, line: nat, mutable: bool, capacity: nat)
    requires Ready(look, r, entry, rows, ranges, width, labels, line)
    ensures var count := PrintCount(rows, mutable, capacity);
            var r' := Printed(r, entry, rows, count, mutable);
            var printed, tail := Ranges(rows[..count], r.base), Ranges(rows[count..], r.base);
            && Kept(r', ranges + printed, entry.text)
            && Tiles(entry.text, ranges + printed + tail, 0, |entry.text|)
            && r'.position == r.position
            && (!mutable ==> r'.complete)
  {
    hide Spans, RowsFromLine, Tiles, LineStart, Ranges, PrintCount, FirstBody, Ready;
    var count := PrintCount(rows, mutable, capacity);
    var left, stop := PrintLeavesLines(look, r, entry, rows, ranges, width, labels, line, mutable, capacity);
    PrintTiles(look, r, entry, rows, ranges, width, labels, line, count, left, stop);
    RemainingAt(look, r, entry, rows, ranges, width, labels, line, count, left, stop);
    UnprintedKept(look, r, entry, rows, ranges, width, labels, line);
    if count == 0 {
      NothingPrinted(r, ranges, Ranges(rows[..count], r.base), rows);
    } else {
      SomePrintedKept(look, r, entry, rows, ranges + Ranges(rows[..count], r.base), count, left, stop, mutable);
    }
  }

  lemma {:induction false} SomePrintedKept(look: Look, r: Receipt, entry: Entry, rows: seq<FlowRow>, shown: seq<Span>,
                                           count: nat, left: nat, stop: nat, mutable: bool)
    requires r.text == entry.text && r.base <= |entry.text| && 0 < count <= |rows|
    requires stop <= |Spans(entry.text[r.base..], 0)|
    requires Tiles(entry.text, shown, 0, r.base + LineStart(entry.text[r.base..], stop))
    requires var body, remaining := entry.text[r.base..], rows[count..];
             if stop < |Spans(body, 0)| then
               && FirstBody(remaining) == left < |remaining|
               && remaining[left].cursor == Cursor(stop, 0) && remaining[left].span.start == LineStart(body, stop)
             else remaining == []
    requires !mutable ==> count == |rows|
    ensures Kept(Printed(r, entry, rows, count, mutable), shown, entry.text)
  {
    hide Spans, Tiles, LineStart, FirstBody;
    PastLast(entry.text[r.base..]);
  }

  lemma {:induction false} NothingPrinted(r: Receipt, ranges: seq<Span>, printed: seq<Span>, rows: seq<FlowRow>)
    requires printed == Ranges(rows[..0], r.base)
    ensures printed == [] && ranges + printed == ranges
  {
  }

  lemma {:induction false} UnprintedKept(look: Look, r: Receipt, entry: Entry, rows: seq<FlowRow>, ranges: seq<Span>,
                                         width: nat, labels: nat, line: nat)
    requires Ready(look, r, entry, rows, ranges, width, labels, line)
    ensures r.text == entry.text && r.base <= |entry.text| && !r.complete && Kept(r, ranges, entry.text)
  {
  }

  // ---------------------------------------------------------------- one entry within a drain

  predicate DistinctIds(entries: seq<Entry>) {
    forall i, j :: 0 <= i < j < |entries| ==> entries[i].id != entries[j].id
  }

  ghost predicate Absent(pending: seq<Pending>, from: nat, id: string) {
    forall k :: from <= k < |pending| ==> pending[k].entry.id != id
  }

  lemma {:induction false} PreparedOthers(look: Look, frontier: Option<Position>, entries: seq<Entry>, i: nat,
                                          walk: Walk, width: nat, printed: map<string, Receipt>, id: string)
    requires Segments(look.g) && i <= |entries| && forall k :: i <= k < |entries| ==> entries[k].id != id
    ensures var (after, pending) := AllPrepared(look, frontier, entries, i, walk, width, printed);
            ReceiptOf(after, id) == ReceiptOf(printed, id) && Absent(pending, 0, id)
    decreases |entries| - i
  {
    hide Prepared, IsSeparated, Walked, Segments;
    if i < |entries| {
      var entry := entries[i];
      match Prepared(look, frontier, ReceiptOf(printed, entry.id), entry, width, IsSeparated(walk, entry))
      case None => PreparedOthers(look, frontier, entries, i + 1, Walked(walk, entry), width, printed, id);
      case Some(pair) =>
        PreparedOthers(look, frontier, entries, i + 1, Walked(walk, entry), width, printed[entry.id := pair.0], id);
    }
  }

  /** What preparing does with the one entry of an identity. */
  ghost predicate PreparedFor(look: Look, frontier: Option<Position>, before: Option<Receipt>, entry: Entry, width: nat,
                              separated: bool, after: Option<Receipt>, pending: seq<Pending>, at: nat)
    requires Segments(look.g)
  {
    match Prepared(look, frontier, before, entry, width, separated)
    case None => after == before && Absent(pending, 0, entry.id)
    case Some(pair) =>
      && after == Some(pair.0)
      && at < |pending| && pending[at] == Pending(entry, pair.1)
      && Absent(pending[..at], 0, entry.id) && Absent(pending, at + 1, entry.id)
  }

  lemma {:induction false} PreparedShift(look: Look, frontier: Option<Position>, before: Option<Receipt>, entry: Entry,
                                         width: nat, separated: bool, after: Option<Receipt>, rest: seq<Pending>,
                                         at: nat, first: Pending)
    requires Segments(look.g) && PreparedFor(look, frontier, before, entry, width, separated, after, rest, at)
    requires first.entry.id != entry.id
    ensures PreparedFor(look, frontier, before, entry, width, separated, after, [first] + rest, at + 1)
  {
    hide Prepared;
    if at < |rest| {
      assert ([first] + rest)[..at + 1] == [first] + rest[..at];
    }
  }

  lemma {:induction false} PreparedAt(look: Look, frontier: Option<Position>, entries: seq<Entry>, i: nat, walk: Walk,
                                      width: nat, printed: map<string, Receipt>, k: nat)
    returns (separated: bool, at: nat)
    requires Segments(look.g) && DistinctIds(entries) && i <= k < |entries|
    ensures var (after, pending) := AllPrepared(look, frontier, entries, i, walk, width, printed);
            PreparedFor(look, frontier, ReceiptOf(printed, entries[k].id), entries[k], width, separated,
                        ReceiptOf(after, entries[k].id), pending, at)
    decreases k - i
  {
    hide Prepared, IsSeparated, Walked, Segments;
    var entry := entries[i];
    separated, at := IsSeparated(walk, entry), 0;
    var prepared := Prepared(look, frontier, ReceiptOf(printed, entry.id), entry, width, separated);
    var walk' := Walked(walk, entry);
    var printed' := if prepared.Some? then printed[entry.id := prepared.value.0] else printed;
    var rest := AllPrepared(look, frontier, entries, i + 1, walk', width, printed').1;
    if i == k {
      PreparedOthers(look, frontier, entries, i + 1, walk', width, printed', entry.id);
    } else {
      separated, at := PreparedAt(look, frontier, entries, i + 1, walk', width, printed', k);
      if prepared.Some? {
        hide AllPrepared;
        PreparedShift(look, frontier, ReceiptOf(printed, entries[k].id), entries[k], width, separated,
                      ReceiptOf(AllPrepared(look, frontier, entries, i + 1, walk', width, printed').0, entries[k].id),
                      rest, at, Pending(entry, prepared.value.1));
        at := at + 1;
      }
    }
  }

  /** What an output records about an identity. */
  ghost predicate SameFor(before: Output, after: Output, id: string) {
    && ReceiptOf(after.printed, id) == ReceiptOf(before.printed, id)
    && Of(after.log, id) == Of(before.log, id)
    && (after.liveEntry == before.liveEntry || (after.liveEntry.Some? && after.liveEntry.value.id != id))
    && (Of(after.tail, id) == [] || (after.tail == before.tail && after.liveEntry == before.liveEntry))
  }

  lemma {:induction false} OtherCommitted(out: Output, p: Pending, mutable: bool, capacity: nat, id: string)
    requires p.entry.id in out.printed && p.entry.id != id
    ensures SameFor(out, OneCommitted(out, p, mutable, capacity), id)
  {
    hide PrintCount, Printed, Tagged, Of;
    var receipt := out.printed[p.entry.id];
    var ranges := Ranges(p.rows[..PrintCount(p.rows, mutable, capacity)], receipt.base);
    OfConcat(out.log, Tagged(p.entry.id, ranges), id);
    OfTagged(p.entry.id, ranges, id);
    OfTagged(p.entry.id, Ranges(p.rows[PrintCount(p.rows, mutable, capacity)..], receipt.base), id);
    assert Of(out.log, id) + [] == Of(out.log, id);
  }

  lemma {:induction false} CommittedOthers(out: Output, pending: seq<Pending>, i: nat, stop: nat, running: bool,
                                           capacity: nat, id: string)
    returns (middle: Output)
    requires i <= stop <= |pending| && AllReceipts(pending, out.printed) && Absent(pending[..stop], i, id)
    ensures AllReceipts(pending, middle.printed) && SameFor(out, middle, id)
    ensures AllCommitted(out, pending, i, running, capacity) == AllCommitted(middle, pending, stop, running, capacity)
    decreases stop - i
  {
    middle := out;
    if i < stop {
      assert pending[..stop][i] == pending[i];
      OtherCommitted(out, pending[i], Mutable(pending, i, running), capacity, id);
      hide OneCommitted;
      var next := OneCommitted(out, pending[i], Mutable(pending, i, running), capacity);
      assert AllReceipts(pending, next.printed) by { ReceiptsStay(out, pending, pending[i],
                                                                  Mutable(pending, i, running), capacity); }
      middle := CommittedOthers(next, pending, i + 1, stop, running, capacity, id);
    }
  }

  lemma {:induction false} ReceiptsStay(out: Output, pending: seq<Pending>, p: Pending, mutable: bool, capacity: nat)
    requires p.entry.id in out.printed && AllReceipts(pending, out.printed)
    ensures AllReceipts(pending, OneCommitted(out, p, mutable, capacity).printed)
  {
    hide PrintCount, Printed, Tagged, Ranges;
  }

  /** What printing does for the one pending entry of an identity. */
  ghost predicate PrintedFor(before: Output, p: Pending, mutable: bool, capacity: nat, after: Output) {
    var id := p.entry.id;
    && id in before.printed
    && var r := before.printed[id];
       var count := PrintCount(p.rows, mutable, capacity);
       && ReceiptOf(after.printed, id) == Some(Printed(r, p.entry, p.rows, count, mutable))
       && Of(after.log, id) == Of(before.log, id) + Ranges(p.rows[..count], r.base)
       && (after.liveEntry.Some? && after.liveEntry.value.id == id ==>
             after.liveEntry.value == p.entry && Of(after.tail, id) == Ranges(p.rows[count..], r.base))
       && (after.liveEntry.Some? && after.liveEntry.value.id != id ==> Of(after.tail, id) == [])
  }

  lemma {:induction false} OwnCommitted(out: Output, p: Pending, mutable: bool, capacity: nat)
    requires p.entry.id in out.printed && !(out.liveEntry.Some? && out.liveEntry.value.id == p.entry.id)
    ensures PrintedFor(out, p, mutable, capacity, OneCommitted(out, p, mutable, capacity))
    ensures !mutable ==> OneCommitted(out, p, mutable, capacity).liveEntry == out.liveEntry
  {
    hide Of, Printed, Tagged, PrintCount;
    var receipt := out.printed[p.entry.id];
    var count := PrintCount(p.rows, mutable, capacity);
    OfConcat(out.log, Tagged(p.entry.id, Ranges(p.rows[..count], receipt.base)), p.entry.id);
    OfTagged(p.entry.id, Ranges(p.rows[..count], receipt.base), p.entry.id);
    OfTagged(p.entry.id, Ranges(p.rows[count..], receipt.base), p.entry.id);
    assert !mutable ==> p.rows[count..] == [];
    assert p.rows[count..] == [] ==> Ranges(p.rows[count..], receipt.base) == [];
  }

  lemma {:induction false} CommittedAt(out: Output, pending: seq<Pending>, running: bool, capacity: nat, at: nat)
    requires AllReceipts(pending, out.printed) && at < |pending| && out.liveEntry.None?
    requires Absent(pending[..at], 0, pending[at].entry.id) && Absent(pending, at + 1, pending[at].entry.id)
    ensures PrintedFor(out, pending[at], Mutable(pending, at, running), capacity,
                       AllCommitted(out, pending, 0, running, capacity))
  {
    hide OneCommitted, PrintCount, Printed, Of, Ranges, Segments;
    var p, mutable := pending[at], Mutable(pending, at, running);
    var id := p.entry.id;
    var before := CommittedOthers(out, pending, 0, at, running, capacity, id);
    OwnCommitted(before, p, mutable, capacity);
    var own := OneCommitted(before, p, mutable, capacity);
    ReceiptsStay(before, pending, p, mutable, capacity);
    assert pending[..|pending|] == pending;
    var after := CommittedOthers(own, pending, at + 1, |pending|, running, capacity, id);
    if at + 1 < |pending| {
      assert !mutable;
    } else {
      assert after == own by { NoMore(own, after, pending, running, capacity); }
    }
  }

  lemma {:induction false} NoMore(own: Output, after: Output, pending: seq<Pending>, running: bool, capacity: nat)
    requires AllReceipts(pending, own.printed) && AllReceipts(pending, after.printed)
    requires AllCommitted(own, pending, |pending|, running, capacity)
          == AllCommitted(after, pending, |pending|, running, capacity)
    ensures after == own
  {
  }

  // ---------------------------------------------------------------- runs

  datatype Event = Drain(entries: seq<Entry>, running: bool, width: nat, capacity: nat) | Seal

  function EntryOf(entries: seq<Entry>, id: string): (entry: Option<Entry>)
    ensures entry.Some? ==> exists k :: 0 <= k < |entries| && entries[k] == entry.value && entries[k].id == id
    ensures entry.None? ==> forall k :: 0 <= k < |entries| ==> entries[k].id != id
  {
    if entries == [] then None
    else if entries[0].id == id then Some(entries[0])
    else
      var found := EntryOf(entries[1..], id);
      assert found.Some? ==>
          exists k :: 0 <= k < |entries[1..]| && entries[1..][k] == found.value && entries[k + 1] == found.value;
      found
  }

  /** The text an entry was last shown with. */
  function TextAfter(event: Event, id: string, text: string): string {
    if event.Drain? && EntryOf(event.entries, id).Some? then EntryOf(event.entries, id).value.text else text
  }

  /** Wherever the entry is shown it is a plain body at its fixed position, and its text only grows. */
  predicate Grows(events: seq<Event>, id: string, position: Option<Position>, text: string) {
    events == [] || (GrowsAt(events[0], id, position, text) && Grows(events[1..], id, position,
                                                                     TextAfter(events[0], id, text)))
  }

  predicate GrowsAt(event: Event, id: string, position: Option<Position>, text: string) {
    event.Drain? ==>
      && DistinctIds(event.entries)
      && match EntryOf(event.entries, id)
         case None => true
         case Some(entry) => PlainBody(entry) && entry.position == position && text <= entry.text
  }

  ghost predicate LiveKnown(flow: Flow) {
    flow.liveEntry.Some? ==> flow.liveEntry.value.id in flow.printed
  }

  ghost function After(look: Look, flow: Flow, event: Event): Flow
    requires Segments(look.g) && LiveKnown(flow)
  {
    match event
    case Drain(entries, running, width, capacity) => Drained(look, flow, entries, running, width, capacity)
    case Seal => Sealed(flow)
  }

  lemma {:induction false} CommittedKnown(out: Output, pending: seq<Pending>, i: nat, running: bool, capacity: nat)
    requires i <= |pending| && AllReceipts(pending, out.printed)
    requires out.liveEntry.Some? ==> out.liveEntry.value.id in out.printed
    ensures var end := AllCommitted(out, pending, i, running, capacity);
            end.liveEntry.Some? ==> end.liveEntry.value.id in end.printed
    decreases |pending| - i
  {
    hide PrintCount, Printed, Tagged, Ranges;
    if i < |pending| {
      CommittedKnown(OneCommitted(out, pending[i], Mutable(pending, i, running), capacity), pending, i + 1, running,
                     capacity);
    }
  }

  lemma {:induction false} AfterKnown(look: Look, flow: Flow, event: Event)
    requires Segments(look.g) && LiveKnown(flow)
    ensures LiveKnown(After(look, flow, event))
  {
    hide AllCommitted, AllPrepared, Forgotten;
    if event.Drain? {
      var kept := Forgotten(flow, event.entries);
      var (printed, pending) := AllPrepared(look, kept.frontier, event.entries, 0, Start(), event.width, kept.printed);
      PreparedReceipts(look, kept.frontier, event.entries, 0, Start(), event.width, kept.printed);
      CommittedKnown(Output(printed, [], [], None, flow.log, []), pending, 0, event.running, event.capacity);
    }
  }

  ghost function Run(look: Look, flow: Flow, events: seq<Event>): Flow
    requires Segments(look.g) && LiveKnown(flow)
    decreases |events|
  {
    if events == [] then flow
    else
      AfterKnown(look, flow, events[0]);
      Run(look, After(look, flow, events[0]), events[1..])
  }

  function RunText(events: seq<Event>, id: string, text: string): string
    decreases |events|
  {
    if events == [] then text else RunText(events[1..], id, TextAfter(events[0], id, text))
  }

  ghost predicate ShownPartly(ranges: seq<Span>, text: string) {
    exists upto :: 0 <= upto <= |text| && Tiles(text, ranges, 0, upto)
  }

  ghost predicate IsLive(flow: Flow, id: string) {
    flow.liveEntry.Some? && flow.liveEntry.value.id == id
  }

  ghost predicate Passed(frontier: Option<Position>, position: Option<Position>) {
    position.Some? && frontier.Some? && ComparePositions(position.value, frontier.value) <= 0
  }

  /** The invariant of a run for one entry. */
  ghost predicate Tracked(flow: Flow, id: string, position: Option<Position>, text: string) {
    var ranges := Of(flow.log, id);
    && (flow.liveEntry.Some? && !IsLive(flow, id) ==> Of(flow.tail, id) == [])
    && if id in flow.printed then
      && flow.printed[id].position == position && Kept(flow.printed[id], ranges, text)
      && (IsLive(flow, id) ==> flow.liveEntry.value.text == text && Tiles(text, ranges + Of(flow.tail, id), 0, |text|))
    else
      !IsLive(flow, id) && (ranges == [] || (Passed(flow.frontier, position) && ShownPartly(ranges, text)))
  }

  lemma {:induction false} KeptShown(r: Receipt, ranges: seq<Span>, text: string)
    requires Kept(r, ranges, text)
    ensures ShownPartly(ranges, text)
  {
    hide Tiles, Spans;
    if r.complete {
      assert Tiles(text, ranges, 0, |text|);
    } else if r.labelPrinted {
      TilesShowOnce(text, ranges, 0, r.offset, 0);
      assert Tiles(text, ranges, 0, r.offset);
    } else {
      NoTiles(text);
    }
  }

  /** A drain forgets an entry that it lacks: one without a position, with a receipt, and not live. */
  ghost predicate Forgets(flow: Flow, event: Event, id: string, position: Option<Position>) {
    && event.Drain? && EntryOf(event.entries, id).None?
    && position.None? && id in flow.printed && !IsLive(flow, id)
  }

  /** After the removed entries are forgotten, before anything is printed. */
  lemma {:induction false} ForgottenTracked(flow: Flow, entries: seq<Entry>, id: string, position: Option<Position>,
                                            text: string)
    requires Tracked(flow, id, position, text)
    requires position.Some? || EntryOf(entries, id).Some? || id !in flow.printed || IsLive(flow, id)
    ensures var kept := Forgotten(flow, entries);
            if id in kept.printed then id in flow.printed && kept.printed[id] == flow.printed[id]
            else Of(flow.log, id) == [] || (Passed(kept.frontier, position) && ShownPartly(Of(flow.log, id), text))
    ensures EntryOf(entries, id).Some? && id in flow.printed ==> id in Forgotten(flow, entries).printed
  {
    hide Kept, ShownPartly, Of, FrontierAfter, ComparePositions;
    var gone := Gone(flow, entries);
    if id in flow.printed {
      KeptShown(flow.printed[id], Of(flow.log, id), text);
    }
    if id in gone {
      assert position.Some?;
      FrontierReaches(flow.frontier, flow.printed, gone, position.value);
    } else if Passed(flow.frontier, position) {
      FrontierReaches(flow.frontier, flow.printed, gone, position.value);
    }
  }

  /** The receipt and the ranges of an entry after one drain that shows it. */
  lemma {:induction false} ShownTracked(look: Look, frontier: Option<Position>, before: Output, entry: Entry,
                                        width: nat, separated: bool, receipt: Option<Receipt>, ranges: seq<Span>,
                                        text: string, pending: Pending, mutable: bool, capacity: nat, after: Output)
    requires Segments(look.g) && PlainBody(entry) && text <= entry.text
    requires match receipt
             case None => ranges == []
             case Some(r) => r.position == entry.position && Kept(r, ranges, text)
    requires Prepared(look, frontier, receipt, entry, width, separated).Some?
    requires var pair := Prepared(look, frontier, receipt, entry, width, separated).value;
             pending == Pending(entry, pair.1) && ReceiptOf(before.printed, entry.id) == Some(pair.0)
    requires Of(before.log, entry.id) == ranges && PrintedFor(before, pending, mutable, capacity, after)
    ensures entry.id in after.printed
    ensures var r', ranges' := after.printed[entry.id], Of(after.log, entry.id);
            && r'.position == entry.position && Kept(r', ranges', entry.text)
            && (after.liveEntry.Some? && after.liveEntry.value.id == entry.id ==>
                  after.liveEntry.value.text == entry.text
                  && Tiles(entry.text, ranges' + Of(after.tail, entry.id), 0, |entry.text|))
            && (after.liveEntry.Some? && after.liveEntry.value.id != entry.id ==> Of(after.tail, entry.id) == [])
            && (!mutable ==> r'.complete)
  {
    hide Prepared, Kept, Tiles, Of, Ready, PrintCount, Printed, Ranges;
    var labels, line := 0, 0;
    match receipt {
      case None => labels := NewReady(look, frontier, entry, width, separated);
      case Some(r) => labels, line := PreparedReady(look, frontier, r, entry, width, separated, ranges, text);
    }
    PrintedKept(look, before.printed[entry.id], entry, pending.rows, ranges, width, labels, line, mutable, capacity);
  }

  /** An entry as it is between forgetting and printing. */
  ghost predicate Between(kept: Flow, id: string, position: Option<Position>, ranges: seq<Span>, text: string) {
    if id in kept.printed then kept.printed[id].position == position && Kept(kept.printed[id], ranges, text)
    else ranges == [] || (Passed(kept.frontier, position) && ShownPartly(ranges, text))
  }

  lemma {:induction false} UntouchedTracked(kept: Flow, out: Output, pending: seq<Pending>, running: bool,
                                            capacity: nat, id: string, position: Option<Position>, text: string)
    requires AllReceipts(pending, out.printed) && Absent(pending, 0, id)
    requires out.liveEntry.None? && out.tail == [] && ReceiptOf(out.printed, id) == ReceiptOf(kept.printed, id)
    requires Between(kept, id, position, Of(out.log, id), text)
    ensures var end := AllCommitted(out, pending, 0, running, capacity);
            && Tracked(Flow(end.printed, kept.frontier, end.liveEntry, end.log, end.tail), id, position, text)
            && ReceiptOf(end.printed, id) == ReceiptOf(kept.printed, id)
  {
    assert Of([], id) == [];
    hide Of, Kept, Tiles, ShownPartly, OneCommitted, Passed;
    assert pending[..|pending|] == pending;
    var end := CommittedOthers(out, pending, 0, |pending|, running, capacity, id);
  }

  /** An entry is passed over when its receipt is settled on this text, or when it was removed before. */
  lemma {:induction false} PassedOver(look: Look, kept: Flow, entry: Entry, width: nat, separated: bool,
                                      ranges: seq<Span>, text: string)
    requires Segments(look.g) && PlainBody(entry) && text <= entry.text
    requires Between(kept, entry.id, entry.position, ranges, text)
    requires Prepared(look, kept.frontier, ReceiptOf(kept.printed, entry.id), entry, width, separated).None?
    ensures Between(kept, entry.id, entry.position, ranges, entry.text)
    ensures entry.id in kept.printed ==> kept.printed[entry.id].complete
    ensures entry.position.None? ==> entry.id in kept.printed
  {
    hide EntryRows, StartAt, Tiles, Resumes, Spans;
    if entry.id !in kept.printed && ranges != [] {
      var upto :| 0 <= upto <= |text| && Tiles(text, ranges, 0, upto);
      TilesGrow(text, entry.text, ranges, 0, upto);
    }
  }

  lemma {:induction false} NotPassed(look: Look, kept: Flow, entry: Entry, width: nat, separated: bool)
    requires Segments(look.g)
    requires Prepared(look, kept.frontier, ReceiptOf(kept.printed, entry.id), entry, width, separated).Some?
    ensures entry.id !in kept.printed ==> !Passed(kept.frontier, entry.position)
  {
    hide EntryRows, StartAt;
  }

  lemma {:induction false} ForgottenBetween(flow: Flow, entries: seq<Entry>, id: string, position: Option<Position>,
                                            text: string)
    requires Tracked(flow, id, position, text)
    requires position.Some? || EntryOf(entries, id).Some? || id !in flow.printed || IsLive(flow, id)
    ensures Between(Forgotten(flow, entries), id, position, Of(flow.log, id), text)
  {
    hide Forgotten, Kept, ShownPartly, Passed, Of;
    ForgottenTracked(flow, entries, id, position, text);
  }

  /** A drain that shows the entry. */
  lemma {:induction false} EntryTracked(look: Look, kept: Flow, entries: seq<Entry>, running: bool, width: nat,
                                        capacity: nat, k: nat, text: string)
    requires Segments(look.g) && DistinctIds(entries) && k < |entries|
    requires PlainBody(entries[k]) && text <= entries[k].text
    requires Between(kept, entries[k].id, entries[k].position, Of(kept.log, entries[k].id), text)
    ensures var (printed, pending) := AllPrepared(look, kept.frontier, entries, 0, Start(), width, kept.printed);
            var out := Output(printed, [], [], None, kept.log, []);
            && AllReceipts(pending, printed)
            && var end := AllCommitted(out, pending, 0, running, capacity);
               && Tracked(Flow(end.printed, kept.frontier, end.liveEntry, end.log, end.tail), entries[k].id,
                          entries[k].position, entries[k].text)
               && (!running && entries[k].id in end.printed ==> end.printed[entries[k].id].complete)
               && (entries[k].position.None? ==> entries[k].id in end.printed)
  {
    hide Of, Kept, Tiles, ShownPartly, Prepared, AllPrepared, AllCommitted, Passed, DistinctIds, Segments, PlainBody;
    var entry := entries[k];
    PreparedReceipts(look, kept.frontier, entries, 0, Start(), width, kept.printed);
    var (printed, pending) := AllPrepared(look, kept.frontier, entries, 0, Start(), width, kept.printed);
    var out := Output(printed, [], [], None, kept.log, []);
    var separated, at := PreparedAt(look, kept.frontier, entries, 0, Start(), width, kept.printed, k);
    match Prepared(look, kept.frontier, ReceiptOf(kept.printed, entry.id), entry, width, separated) {
      case None =>
        PassedOver(look, kept, entry, width, separated, Of(kept.log, entry.id), text);
        UntouchedTracked(kept, out, pending, running, capacity, entry.id, entry.position, entry.text);
      case Some(pair) =>
        NotPassed(look, kept, entry, width, separated);
        CommittedAt(out, pending, running, capacity, at);
        hide PrintedFor;
        ShownTracked(look, kept.frontier, out, entry, width, separated, ReceiptOf(kept.printed, entry.id),
                     Of(kept.log, entry.id), text, pending[at], Mutable(pending, at, running), capacity,
                     AllCommitted(out, pending, 0, running, capacity));
    }
  }

  lemma {:induction false} DrainTracked(look: Look, flow: Flow, entries: seq<Entry>, running: bool, width: nat,
                                        capacity: nat, id: string, position: Option<Position>, text: string)
    requires Segments(look.g) && LiveKnown(flow) && Tracked(flow, id, position, text)
    requires var event := Drain(entries, running, width, capacity);
             GrowsAt(event, id, position, text) && !Forgets(flow, event, id, position)
    ensures Tracked(Drained(look, flow, entries, running, width, capacity), id, position,
                    TextAfter(Drain(entries, running, width, capacity), id, text))
    ensures var end := Drained(look, flow, entries, running, width, capacity);
            && (EntryOf(entries, id).Some? && !running && id in end.printed ==> end.printed[id].complete)
            && (EntryOf(entries, id).Some? && position.None? ==> id in end.printed)
  {
    ForgottenBetween(flow, entries, id, position, text);
    var kept := Forgotten(flow, entries);
    PreparedReceipts(look, kept.frontier, entries, 0, Start(), width, kept.printed);
    hide Forgotten, Between, Of, AllPrepared, AllCommitted, Tracked, PlainBody, DistinctIds;
    match EntryOf(entries, id) {
      case None =>
        PreparedOthers(look, kept.frontier, entries, 0, Start(), width, kept.printed, id);
        var (printed, pending) := AllPrepared(look, kept.frontier, entries, 0, Start(), width, kept.printed);
        UntouchedTracked(kept, Output(printed, [], [], None, flow.log, []), pending, running, capacity, id, position,
                         text);
      case Some(entry) =>
        var k :| 0 <= k < |entries| && entries[k] == entry;
        EntryTracked(look, kept, entries, running, width, capacity, k, text);
    }
  }

  lemma {:induction false} SealTracked(flow: Flow, id: string, position: Option<Position>, text: string)
    requires LiveKnown(flow) && Tracked(flow, id, position, text)
    ensures Tracked(Sealed(flow), id, position, text)
  {
    hide Of, Tiles, ShownPartly;
    if flow.liveEntry.Some? {
      OfConcat(flow.log, flow.tail, id);
      assert Of(flow.log, id) + [] == Of(flow.log, id);
    }
  }

  /** A drain that forgets the entry starts afresh: as if nothing had been printed for it. */
  lemma {:induction false} ForgetsTracked(look: Look, flow: Flow, event: Event, id: string, position: Option<Position>,
                                          text: string)
    requires Segments(look.g) && LiveKnown(flow) && Forgets(flow, event, id, position)
    requires flow.log == [] && GrowsAt(event, id, position, text)
    ensures Tracked(After(look, flow, event), id, position, text)
  {
    var entries := event.entries;
    var kept := Forgotten(flow, entries);
    assert id in Gone(flow, entries);
    assert Of(flow.log, id) == [];
    PreparedReceipts(look, kept.frontier, entries, 0, Start(), event.width, kept.printed);
    PreparedOthers(look, kept.frontier, entries, 0, Start(), event.width, kept.printed, id);
    hide Gone, FrontierAfter, Of, AllPrepared, AllCommitted, Tracked, DistinctIds, ShownPartly;
    var (printed, pending) := AllPrepared(look, kept.frontier, entries, 0, Start(), event.width, kept.printed);
    UntouchedTracked(kept, Output(printed, [], [], None, [], []), pending, event.running, event.capacity, id, position,
                     text);
  }

  // ---------------------------------------------------------------- what is printed does not depend on the log

  lemma {:induction false} CommittedLog(out: Output, earlier: seq<Piece>, pending: seq<Pending>, i: nat, running: bool,
                                        capacity: nat)
    requires i <= |pending| && AllReceipts(pending, out.printed)
    ensures var end := AllCommitted(out, pending, i, running, capacity);
            AllCommitted(out.(log := earlier + out.log), pending, i, running,
                         capacity) == end.(log := earlier + end.log)
    decreases |pending| - i
  {
    hide PrintCount, Printed, Tagged, Ranges;
    if i < |pending| {
      var p, mutable := pending[i], Mutable(pending, i, running);
      var next := OneCommitted(out, p, mutable, capacity);
      var pieces := Tagged(p.entry.id, Ranges(p.rows[..PrintCount(p.rows, mutable, capacity)],
                                              out.printed[p.entry.id].base));
      assert earlier + (out.log + pieces) == earlier + out.log + pieces;
      CommittedLog(next, earlier, pending, i + 1, running, capacity);
    }
  }

  lemma {:induction false} AfterLog(look: Look, flow: Flow, earlier: seq<Piece>, event: Event)
    requires Segments(look.g) && LiveKnown(flow)
    ensures var end := After(look, flow, event);
            After(look, flow.(log := earlier + flow.log), event) == end.(log := earlier + end.log)
  {
    hide AllPrepared, AllCommitted, FrontierAfter;
    match event
    case Drain(entries, running, width, capacity) =>
      var kept := Forgotten(flow, entries);
      PreparedReceipts(look, kept.frontier, entries, 0, Start(), width, kept.printed);
      var (printed, pending) := AllPrepared(look, kept.frontier, entries, 0, Start(), width, kept.printed);
      assert Gone(flow.(log := earlier + flow.log), entries) == Gone(flow, entries);
      CommittedLog(Output(printed, [], [], None, flow.log, []), earlier, pending, 0, running, capacity);
    case Seal =>
      assert earlier + (flow.log + flow.tail) == earlier + flow.log + flow.tail;
  }

  /** Nothing printed is ever taken back. */
  lemma {:induction false} RunLog(look: Look, flow: Flow, events: seq<Event>)
    requires Segments(look.g) && LiveKnown(flow)
    ensures flow.log <= Run(look, flow, events).log
    decreases |events|
  {
    hide Drained, Sealed, LiveKnown;
    if events != [] {
      var plain := flow.(log := []);
      assert LiveKnown(plain) by { SameLive(flow, []); }
      AfterLog(look, plain, flow.log, events[0]);
      assert flow.log + [] == flow.log;
      AfterKnown(look, flow, events[0]);
      RunLog(look, After(look, flow, events[0]), events[1..]);
    }
  }

  lemma {:induction false} SameLive(flow: Flow, log: seq<Piece>)
    requires LiveKnown(flow)
    ensures LiveKnown(flow.(log := log))
  {
  }

  // ---------------------------------------------------------------- shown once, shown again

  lemma {:induction false} TimesConcat(a: seq<Span>, b: seq<Span>, at: nat)
    ensures TimesShown(a + b, at) == TimesShown(a, at) + TimesShown(b, at)
    decreases |a|
  {
    if a == [] {
      assert a + b == b;
    } else {
      assert (a + b)[0] == a[0] && (a + b)[1..] == a[1..] + b;
      TimesConcat(a[1..], b, at);
    }
  }

  ghost predicate Shown(ranges: seq<Span>) {
    exists at: nat :: TimesShown(ranges, at) > 0
  }

  ghost predicate Repeats(ranges: seq<Span>) {
    exists at: nat :: TimesShown(ranges, at) > 1
  }

  /** Only characters of the text that are no line feeds. */
  ghost predicate Within(ranges: seq<Span>, text: string) {
    forall at: nat :: TimesShown(ranges, at) > 0 ==> at < |text| && text[at] != '\n'
  }

  /** The first character that is no line feed. */
  function FirstChar(text: string, i: nat): (at: nat)
    requires i <= |text|
    ensures i <= at <= |text| && (at < |text| ==> text[at] != '\n')
    ensures forall k :: i <= k < at ==> text[k] == '\n'
    decreases |text| - i
  {
    if i == |text| || text[i] != '\n' then i else FirstChar(text, i + 1)
  }

  /** Shows the first character if it shows any. */
  ghost predicate Leading(ranges: seq<Span>, text: string) {
    Shown(ranges) ==> TimesShown(ranges, FirstChar(text, 0)) > 0
  }

  /** What is printed of one entry from the start of its text shows no character twice. */
  lemma {:induction false} PartlyShown(ranges: seq<Span>, text: string, whole: string)
    requires ShownPartly(ranges, text) && text <= whole
    ensures !Repeats(ranges) && Leading(ranges, whole) && Within(ranges, text)
  {
    hide Tiles, TimesShown;
    var upto :| 0 <= upto <= |text| && Tiles(text, ranges, 0, upto);
    forall at: nat ensures TimesShown(ranges, at) == if at < upto && text[at] != '\n' then 1 else 0 {
      TilesShowOnce(text, ranges, 0, upto, at);
    }
    if Shown(ranges) {
      var at: nat :| TimesShown(ranges, at) > 0;
      assert whole[at] == text[at];
      assert FirstChar(whole, 0) <= at;
    }
  }

  lemma {:induction false} ShownConcat(a: seq<Span>, b: seq<Span>)
    ensures Shown(a + b) <==> Shown(a) || Shown(b)
    ensures Repeats(a) || Repeats(b) ==> Repeats(a + b)
  {
    hide TimesShown;
    forall at: nat ensures TimesShown(a + b, at) == TimesShown(a, at) + TimesShown(b, at) {
      TimesConcat(a, b, at);
    }
    if Shown(a) || Shown(b) {
      var at: nat :| TimesShown(a, at) > 0 || TimesShown(b, at) > 0;
      assert TimesShown(a + b, at) > 0;
    }
    if Repeats(a) || Repeats(b) {
      var at: nat :| TimesShown(a, at) > 1 || TimesShown(b, at) > 1;
      assert TimesShown(a + b, at) > 1;
    }
  }

  /** Two printings that each start at the beginning repeat a character exactly when both show one. */
  lemma {:induction false} TwoPrintings(a: seq<Span>, b: seq<Span>, text: string)
    requires !Repeats(a) && !Repeats(b) && Leading(a, text) && Leading(b, text)
    ensures Repeats(a + b) <==> Shown(a) && Shown(b)
    ensures Leading(a + b, text)
  {
    hide TimesShown;
    var c := FirstChar(text, 0);
    forall at: nat ensures TimesShown(a + b, at) == TimesShown(a, at) + TimesShown(b, at) {
      TimesConcat(a, b, at);
    }
    ShownConcat(a, b);
    if Shown(a) && Shown(b) {
      assert TimesShown(a + b, c) > 1;
    }
    if Repeats(a + b) {
      var at: nat :| TimesShown(a + b, at) > 1;
      assert TimesShown(a, at) <= 1 && TimesShown(b, at) <= 1;
    }
  }

  lemma {:induction false} TrackedPartly(flow: Flow, id: string, position: Option<Position>, text: string)
    requires Tracked(flow, id, position, text)
    ensures ShownPartly(Of(flow.log, id), text)
  {
    hide Tiles, Kept;
    if id in flow.printed {
      KeptShown(flow.printed[id], Of(flow.log, id), text);
    } else if Of(flow.log, id) == [] {
      NoTiles(text);
    }
  }

  // ---------------------------------------------------------------- every run

  /** How much of its text a receipt says has been printed. */
  function Reached(r: Receipt): int {
    if !r.labelPrinted then 0 else if r.complete then |r.text| else r.offset
  }

  /** A receipt says that a character other than a line feed has been printed. */
  predicate ReceiptShows(flow: Flow, id: string) {
    id in flow.printed && FirstChar(flow.printed[id].text, 0) < Reached(flow.printed[id])
  }

  /** Now or after some later event a receipt shows some of the entry. */
  ghost predicate ShowsLater(look: Look, flow: Flow, events: seq<Event>, id: string)
    requires Segments(look.g) && LiveKnown(flow)
    decreases |events|
  {
    || ReceiptShows(flow, id)
    || (events != [] &&
        ( AfterKnown(look, flow, events[0]);
          ShowsLater(look, After(look, flow, events[0]), events[1..], id)))
  }

  /**
   Printed, forgotten, and printed again: a drain lacks the entry while it has no position, is not
   live and its receipt shows some of it; and a later receipt shows some of it.
   */
  ghost predicate PrintedAgain(look: Look, flow: Flow, events: seq<Event>, id: string, position: Option<Position>)
    requires Segments(look.g) && LiveKnown(flow)
    decreases |events|
  {
    events != [] &&
    ( AfterKnown(look, flow, events[0]);
      var next := After(look, flow, events[0]);
      || (Forgets(flow, events[0], id, position) && ReceiptShows(flow, id)
          && ShowsLater(look, next, events[1..], id))
      || PrintedAgain(look, next, events[1..], id, position))
  }

  /** A receipt of an entry without a position shows some of it exactly when some has been printed. */
  lemma {:induction false} ReceiptTells(flow: Flow, id: string, text: string)
    requires Tracked(flow, id, None, text)
    ensures ReceiptShows(flow, id) <==> Shown(Of(flow.log, id))
  {
    hide Tiles, TimesShown, Of, Spans, LineStart, FirstChar;
    var ranges := Of(flow.log, id);
    if ranges == [] {
      NoTiles(text);
    }
    if id in flow.printed || ranges == [] {
      var upto := if id in flow.printed then Reached(flow.printed[id]) else 0;
      assert Tiles(text, ranges, 0, upto);
      ShowsUpTo(text, ranges, upto);
    }
  }

  lemma {:induction false} ShowsUpTo(text: string, ranges: seq<Span>, upto: nat)
    requires Tiles(text, ranges, 0, upto)
    ensures Shown(ranges) <==> FirstChar(text, 0) < upto
  {
    hide Tiles, TimesShown;
    var first := FirstChar(text, 0);
    TilesShowOnce(text, ranges, 0, upto, first);
    if Shown(ranges) {
      var at: nat :| TimesShown(ranges, at) > 0;
      TilesShowOnce(text, ranges, 0, upto, at);
      assert first <= at;
    } else {
      assert TimesShown(ranges, first) == 0;
    }
  }

  lemma {:induction false} TextGrows(events: seq<Event>, id: string, position: Option<Position>, text: string)
    requires Grows(events, id, position, text)
    ensures text <= RunText(events, id, text)
    decreases |events|
  {
    if events != [] {
      TextGrows(events[1..], id, position, TextAfter(events[0], id, text));
    }
  }

  /** One event, the log being an earlier part and what was printed since the entry was last forgotten. */
  lemma {:induction false} StepTracked(look: Look, flow: Flow, event: Event, earlier: seq<Piece>, current: seq<Piece>,
                                       id: string, position: Option<Position>, text: string)
    returns (earlier': seq<Piece>, current': seq<Piece>)
    requires Segments(look.g) && LiveKnown(flow) && flow.log == earlier + current && GrowsAt(event, id, position, text)
    requires Tracked(flow.(log := current), id, position, text)
    ensures var next := After(look, flow, event);
            && next.log == earlier' + current'
            && Tracked(next.(log := current'), id, position, TextAfter(event, id, text))
    ensures earlier' == if Forgets(flow, event, id, position) then flow.log else earlier
  {
    hide Tracked, Drained, Sealed, GrowsAt, TextAfter;
    var started := if Forgets(flow, event, id, position) then [] else current;
    earlier' := if Forgets(flow, event, id, position) then flow.log else earlier;
    var plain := flow.(log := started);
    assert earlier' + started == flow.log;
    SameLive(flow, started);
    AfterLog(look, plain, earlier', event);
    current' := After(look, plain, event).log;
    if Forgets(flow, event, id, position) {
      ForgetsTracked(look, plain, event, id, position, text);
      AbsentKeepsText(event, id, text);
    } else {
      match event {
        case Drain(entries, running, width, capacity) =>
          DrainTracked(look, plain, entries, running, width, capacity, id, position, text);
        case Seal =>
          SealTracked(plain, id, position, text);
          SealKeepsText(id, text);
      }
    }
  }

  lemma {:induction false} AbsentKeepsText(event: Event, id: string, text: string)
    requires event.Drain? && EntryOf(event.entries, id).None?
    ensures TextAfter(event, id, text) == text
  {
  }

  lemma {:induction false} SealKeepsText(id: string, text: string)
    ensures TextAfter(Seal, id, text) == text
  {
  }

  /** Every run keeps the invariant for what was printed since the entry was last forgotten. */
  lemma {:induction false} RunTracked(look: Look, flow: Flow, events: seq<Event>, earlier: seq<Piece>,
                                      current: seq<Piece>, id: string, position: Option<Position>, text: string)
    returns (earlier': seq<Piece>, current': seq<Piece>)
    requires Segments(look.g) && LiveKnown(flow) && flow.log == earlier + current && Grows(events, id, position, text)
    requires Tracked(flow.(log := current), id, position, text) && Within(Of(earlier, id), text)
    ensures var end, whole := Run(look, flow, events), RunText(events, id, text);
            && end.log == earlier' + current' && Tracked(end.(log := current'), id, position, whole)
            && Within(Of(earlier', id), whole)
    ensures position.Some? ==> earlier' == earlier
    decreases |events|
  {
    hide Tracked, After, LiveKnown, GrowsAt, Forgets, Within, Of, ShownPartly;
    if events == [] {
      earlier', current' := earlier, current;
    } else {
      var next, grown := After(look, flow, events[0]), TextAfter(events[0], id, text);
      var before, since := StepTracked(look, flow, events[0], earlier, current, id, position, text);
      OnlyUnpositioned(flow, events[0], id, position);
      StepWithin(flow, earlier, current, before, id, position, text, grown, events[0]);
      AfterKnown(look, flow, events[0]);
      earlier', current' := RunTracked(look, next, events[1..], before, since, id, position, grown);
    }
  }

  lemma {:induction false} OnlyUnpositioned(flow: Flow, event: Event, id: string, position: Option<Position>)
    ensures Forgets(flow, event, id, position) ==> position.None?
  {
  }

  lemma {:induction false} StepWithin(flow: Flow, earlier: seq<Piece>, current: seq<Piece>, before: seq<Piece>,
                                      id: string, position: Option<Position>, text: string, grown: string, event: Event)
    requires flow.log == earlier + current && Within(Of(earlier, id), text)
    requires Tracked(flow.(log := current), id, position, text)
    requires before == earlier || before == flow.log
    requires GrowsAt(event, id, position, text) && grown == TextAfter(event, id, text)
    ensures Within(Of(before, id), grown)
  {
    assert text <= grown;
    TrackedPartly(flow.(log := current), id, position, text);
    PartlyShown(Of(current, id), text, text);
    OfConcat(earlier, current, id);
    hide TimesShown, Of, Tracked;
    forall at: nat ensures TimesShown(Of(earlier, id) + Of(current, id), at)
                        == TimesShown(Of(earlier, id), at) + TimesShown(Of(current, id), at) {
      TimesConcat(Of(earlier, id), Of(current, id), at);
    }
  }

  function NewFlow(): Flow { Flow(map[], None, None, [], []) }

  lemma {:induction false} NewTracked(id: string, position: Option<Position>)
    ensures Tracked(NewFlow().(log := []), id, position, "") && NewFlow().log == [] + []
    ensures LiveKnown(NewFlow()) && Of([], id) == [] && !Repeats([]) && !Shown([]) && Within([], "")
    ensures forall text: string :: Leading([], text)
  {
  }

  /**
   What a run repeats, given what an earlier part of the log shows: a character is printed twice
   exactly when the entry is printed, forgotten and printed again, counting the earlier part.
   */
  lemma {:induction false} RepeatsExactly(look: Look, flow: Flow, events: seq<Event>, earlier: seq<Piece>,
                                          current: seq<Piece>, id: string, text: string, whole: string)
    requires Segments(look.g) && LiveKnown(flow) && flow.log == earlier + current && Grows(events, id, None, text)
    requires Tracked(flow.(log := current), id, None, text) && text <= whole == RunText(events, id, text)
    requires !Repeats(Of(earlier, id)) && Leading(Of(earlier, id), whole)
    ensures Repeats(Of(Run(look, flow, events).log, id))
            <==> PrintedAgain(look, flow, events, id, None)
                 || (Shown(Of(earlier, id)) && ShowsLater(look, flow, events, id))
    decreases |events|
  {
    hide Tracked, After, LiveKnown, GrowsAt, Forgets, Repeats, Shown, Leading, Of, TextAfter, ShownPartly, ReceiptShows;
    var e, f := Of(earlier, id), Of(current, id);
    PartsShow(flow, earlier, current, id, text, whole);
    if events != [] {
      var event := events[0];
      var next, grown := After(look, flow, event), TextAfter(event, id, text);
      var before, since := StepTracked(look, flow, event, earlier, current, id, None, text);
      AfterKnown(look, flow, event);
      TextGrows(events[1..], id, None, grown);
      if Shown(e) && Shown(f) {
        RunLog(look, flow, events);
        RepeatsStay(flow.log, Run(look, flow, events).log, id);
      } else {
        RepeatsExactly(look, next, events[1..], before, since, id, grown, whole);
      }
    }
  }

  /** What the earlier part of a log shows, and what has been printed since, as the receipt has it. */
  lemma {:induction false} PartsShow(flow: Flow, earlier: seq<Piece>, current: seq<Piece>, id: string, text: string,
                                     whole: string)
    requires flow.log == earlier + current && Tracked(flow.(log := current), id, None, text) && text <= whole
    requires !Repeats(Of(earlier, id)) && Leading(Of(earlier, id), whole)
    ensures ReceiptShows(flow, id) <==> Shown(Of(current, id))
    ensures Shown(Of(flow.log, id)) <==> Shown(Of(earlier, id)) || Shown(Of(current, id))
    ensures Repeats(Of(flow.log, id)) <==> Shown(Of(earlier, id)) && Shown(Of(current, id))
    ensures Leading(Of(flow.log, id), whole)
  {
    hide Tracked, Repeats, Shown, Leading, Of, ShownPartly;
    TrackedPartly(flow.(log := current), id, None, text);
    PartlyShown(Of(current, id), text, whole);
    ReceiptTells(flow.(log := current), id, text);
    OfConcat(earlier, current, id);
    ShownConcat(Of(earlier, id), Of(current, id));
    TwoPrintings(Of(earlier, id), Of(current, id), whole);
  }

  lemma {:induction false} RepeatsStay(start: seq<Piece>, end: seq<Piece>, id: string)
    requires start <= end && Repeats(Of(start, id))
    ensures Repeats(Of(end, id))
  {
    hide Repeats, Of;
    OfConcat(start, end[|start|..], id);
    assert end == start + end[|start|..];
    ShownConcat(Of(start, id), Of(end[|start|..], id));
  }

  /**
   Exactly once. From an empty screen, whatever is drained and however the terminal is resized, a
   growing plain body has a character printed twice if and only if it is printed, forgotten and
   printed again. Only characters of its text are printed, and no line feeds; once its receipt is
   complete every other character has been printed.
   */
  lemma {:induction false} ExactlyOnce(look: Look, events: seq<Event>, id: string, position: Option<Position>)
    requires Segments(look.g) && Grows(events, id, position, "")
    ensures LiveKnown(NewFlow())
    ensures var end, text := Run(look, NewFlow(), events), RunText(events, id, "");
            var ranges := Of(end.log, id);
            && ((forall at: nat :: TimesShown(ranges, at) <= 1)
                <==> !PrintedAgain(look, NewFlow(), events, id, position))
            && Within(ranges, text)
            && (id in end.printed && end.printed[id].complete ==>
                  forall at: nat :: at < |text| && text[at] != '\n' ==> TimesShown(ranges, at) > 0)
  {
    hide Run, RunText, Tiles, TimesShown, Grows, PrintedAgain, Of, LiveKnown, Tracked, Leading, ShownPartly, Repeats;
    NewTracked(id, position);
    var end, text := Run(look, NewFlow(), events), RunText(events, id, "");
    var ranges := Of(end.log, id);
    RepeatsMeans(ranges);
    var earlier, current := RunTracked(look, NewFlow(), events, [], [], id, position, "");
    TrackedPartly(end.(log := current), id, position, text);
    PartlyShown(Of(current, id), text, text);
    OfConcat(earlier, current, id);
    if position.Some? {
      assert [] + Of(current, id) == Of(current, id);
      PositionedOnce(look, NewFlow(), events, id, position);
    } else {
      RepeatsExactly(look, NewFlow(), events, [], [], id, "", text);
    }
    forall at: nat ensures TimesShown(ranges, at) == TimesShown(Of(earlier, id), at) + TimesShown(Of(current, id), at) {
      TimesConcat(Of(earlier, id), Of(current, id), at);
    }
    if id in end.printed && end.printed[id].complete {
      CompleteShowsAll(end.(log := current), id, position, text);
    }
  }

  lemma {:induction false} RepeatsMeans(ranges: seq<Span>)
    ensures (forall at: nat :: TimesShown(ranges, at) <= 1) <==> !Repeats(ranges)
  {
    if !Repeats(ranges) {
      forall at: nat ensures TimesShown(ranges, at) <= 1 {
      }
    } else {
      var at: nat :| TimesShown(ranges, at) > 1;
      assert !(TimesShown(ranges, at) <= 1);
    }
  }

  lemma {:induction false} CompleteShowsAll(flow: Flow, id: string, position: Option<Position>, text: string)
    requires Tracked(flow, id, position, text) && id in flow.printed && flow.printed[id].complete
    ensures forall at: nat :: at < |text| && text[at] != '\n' ==> TimesShown(Of(flow.log, id), at) == 1
  {
    hide Tiles, TimesShown;
    forall at: nat | at < |text| && text[at] != '\n' ensures TimesShown(Of(flow.log, id), at) == 1 {
      TilesShowOnce(text, Of(flow.log, id), 0, |text|, at);
    }
  }

  /** Entries with a position are never forgotten, so they are printed exactly once on every run. */
  lemma {:induction false} PositionedOnce(look: Look, flow: Flow, events: seq<Event>, id: string,
                                          position: Option<Position>)
    requires Segments(look.g) && LiveKnown(flow) && position.Some?
    ensures !PrintedAgain(look, flow, events, id, position)
    decreases |events|
  {
    hide After, LiveKnown, ReceiptShows, ShowsLater;
    if events != [] {
      AfterKnown(look, flow, events[0]);
      PositionedOnce(look, After(look, flow, events[0]), events[1..], id, position);
    }
  }

  /** A drain while nothing runs settles the body: since it was last forgotten all of its text has been printed once. */
  lemma {:induction false} IdleDrainShowsAll(look: Look, flow: Flow, entries: seq<Entry>, width: nat, capacity: nat,
                                             id: string, position: Option<Position>, text: string, at: nat)
    requires Segments(look.g) && LiveKnown(flow) && Tracked(flow, id, position, text)
    requires GrowsAt(Drain(entries, false, width, capacity), id, position, text)
    requires EntryOf(entries, id).Some? && at < |EntryOf(entries, id).value.text|
    ensures var end := Drained(look, flow, entries, false, width, capacity);
            var shown := EntryOf(entries, id).value.text;
            id in end.printed ==> TimesShown(Of(end.log, id), at) == if shown[at] == '\n' then 0 else 1
  {
    hide Drained, Tiles, TimesShown;
    DrainTracked(look, flow, entries, false, width, capacity, id, position, text);
    var end := Drained(look, flow, entries, false, width, capacity);
    var shown := EntryOf(entries, id).value.text;
    if id in end.printed {
      TilesShowOnce(shown, Of(end.log, id), 0, |shown|, at);
    }
  }

  // ---------------------------------------------------------------- runs that settle at every drain

  /** A drain while nothing runs, or a suspension. */
  predicate Idle(event: Event) {
    event.Drain? ==> !event.running
  }

  /** A drain with the entry, some of whose text is no line feed. */
  predicate Shows(event: Event, id: string) {
    && event.Drain? && EntryOf(event.entries, id).Some?
    && FirstChar(EntryOf(event.entries, id).value.text, 0) < |EntryOf(event.entries, id).value.text|
  }

  predicate Lacks(event: Event, id: string) {
    event.Drain? && EntryOf(event.entries, id).None?
  }

  ghost predicate ShowsIn(events: seq<Event>, id: string) {
    exists k :: 0 <= k < |events| && Shows(events[k], id)
  }

  ghost predicate LacksThenShows(events: seq<Event>, id: string) {
    exists j, k :: 0 <= j < k < |events| && Lacks(events[j], id) && Shows(events[k], id)
  }

  /** Shown, then lacking, then shown again. */
  ghost predicate ComesBack(events: seq<Event>, id: string) {
    exists i, j, k :: 0 <= i < j < k < |events| && Shows(events[i], id) && Lacks(events[j], id) && Shows(events[k], id)
  }

  lemma {:induction false} FirstShows(events: seq<Event>, id: string)
    requires events != []
    ensures ShowsIn(events, id) <==> Shows(events[0], id) || ShowsIn(events[1..], id)
  {
    hide Shows;
    var rest := events[1..];
    if ShowsIn(events, id) {
      var k :| 0 <= k < |events| && Shows(events[k], id);
      assert k > 0 ==> rest[k - 1] == events[k];
    }
    if ShowsIn(rest, id) {
      var k :| 0 <= k < |rest| && Shows(rest[k], id);
      assert Shows(events[k + 1], id);
    }
  }

  lemma {:induction false} LacksFirst(events: seq<Event>, id: string)
    requires events != [] && LacksThenShows(events, id)
    ensures ShowsIn(events[1..], id)
    ensures Lacks(events[0], id) || LacksThenShows(events[1..], id)
  {
    hide Shows, Lacks;
    var rest := events[1..];
    var j, k :| 0 <= j < k < |events| && Lacks(events[j], id) && Shows(events[k], id);
    assert Shows(rest[k - 1], id);
    if j > 0 {
      assert Lacks(rest[j - 1], id);
    }
  }

  lemma {:induction false} FirstLacks(events: seq<Event>, id: string)
    requires events != []
    requires (Lacks(events[0], id) && ShowsIn(events[1..], id)) || LacksThenShows(events[1..], id)
    ensures LacksThenShows(events, id)
  {
    hide Shows, Lacks;
    var rest := events[1..];
    if LacksThenShows(rest, id) {
      var j, k :| 0 <= j < k < |rest| && Lacks(rest[j], id) && Shows(rest[k], id);
      assert Lacks(events[j + 1], id) && Shows(events[k + 1], id);
    } else {
      var k :| 0 <= k < |rest| && Shows(rest[k], id);
      assert Shows(events[k + 1], id);
    }
  }

  lemma {:induction false} BackFirst(events: seq<Event>, id: string)
    requires events != [] && ComesBack(events, id)
    ensures (Shows(events[0], id) && LacksThenShows(events[1..], id)) || ComesBack(events[1..], id)
  {
    hide Shows, Lacks;
    var rest := events[1..];
    var i, j, k :| 0 <= i < j < k < |events| && Shows(events[i], id) && Lacks(events[j], id) && Shows(events[k], id);
    assert Lacks(rest[j - 1], id) && Shows(rest[k - 1], id);
    if i > 0 {
      assert Shows(rest[i - 1], id);
    }
  }

  lemma {:induction false} FirstBack(events: seq<Event>, id: string)
    requires events != []
    requires (Shows(events[0], id) && LacksThenShows(events[1..], id)) || ComesBack(events[1..], id)
    ensures ComesBack(events, id)
  {
    hide Shows, Lacks;
    var rest := events[1..];
    if ComesBack(rest, id) {
      var i, j, k :| 0 <= i < j < k < |rest| && Shows(rest[i], id) && Lacks(rest[j], id) && Shows(rest[k], id);
      assert Shows(events[i + 1], id) && Lacks(events[j + 1], id) && Shows(events[k + 1], id);
    } else {
      var j, k :| 0 <= j < k < |rest| && Lacks(rest[j], id) && Shows(rest[k], id);
      assert Lacks(events[j + 1], id) && Shows(events[k + 1], id);
    }
  }

  /** The three conditions, first event first. */
  lemma {:induction false} FirstEvent(events: seq<Event>, id: string)
    requires events != []
    ensures ShowsIn(events, id) <==> Shows(events[0], id) || ShowsIn(events[1..], id)
    ensures LacksThenShows(events, id)
            <==> (Lacks(events[0], id) && ShowsIn(events[1..], id)) || LacksThenShows(events[1..], id)
    ensures ComesBack(events, id)
            <==> (Shows(events[0], id) && LacksThenShows(events[1..], id)) || ComesBack(events[1..], id)
    ensures LacksThenShows(events, id) ==> ShowsIn(events[1..], id)
    ensures LacksThenShows(events[1..], id) ==> ShowsIn(events[1..], id)
  {
    hide Shows, Lacks, ShowsIn, LacksThenShows, ComesBack;
    FirstShows(events, id);
    if LacksThenShows(events, id) {
      LacksFirst(events, id);
    }
    if LacksThenShows(events[1..], id) || (Lacks(events[0], id) && ShowsIn(events[1..], id)) {
      FirstLacks(events, id);
      LacksFirst(events, id);
    }
    if ComesBack(events, id) {
      BackFirst(events, id);
    }
    if ComesBack(events[1..], id) || (Shows(events[0], id) && LacksThenShows(events[1..], id)) {
      FirstBack(events, id);
    }
  }

  lemma {:induction false} NothingLive(out: Output, pending: seq<Pending>, i: nat, capacity: nat)
    requires i <= |pending| && AllReceipts(pending, out.printed) && out.liveEntry.None?
    ensures AllCommitted(out, pending, i, false, capacity).liveEntry.None?
    decreases |pending| - i
  {
    hide Printed, Tagged, Ranges;
    if i < |pending| {
      CommitNext(out, pending, i, false, capacity);
      NothingLive(OneCommitted(out, pending[i], Mutable(pending, i, false), capacity), pending, i + 1, capacity);
    }
  }

  lemma {:induction false} IdleLeavesNothingLive(look: Look, flow: Flow, event: Event)
    requires Segments(look.g) && LiveKnown(flow) && flow.liveEntry.None? && Idle(event)
    ensures After(look, flow, event).liveEntry.None?
  {
    hide AllCommitted, AllPrepared, Forgotten, Segments;
    if event.Drain? {
      var kept := Forgotten(flow, event.entries);
      var (printed, pending) := AllPrepared(look, kept.frontier, event.entries, 0, Start(), event.width, kept.printed);
      PreparedReceipts(look, kept.frontier, event.entries, 0, Start(), event.width, kept.printed);
      NothingLive(Output(printed, [], [], None, flow.log, []), pending, 0, event.capacity);
    }
  }

  lemma {:induction false} LackingDropped(look: Look, flow: Flow, event: Event, id: string)
    requires Segments(look.g) && LiveKnown(flow) && flow.liveEntry.None? && Lacks(event, id)
    ensures id !in After(look, flow, event).printed
  {
    var entries := event.entries;
    var kept := Forgotten(flow, entries);
    assert id !in kept.printed;
    PreparedReceipts(look, kept.frontier, entries, 0, Start(), event.width, kept.printed);
    PreparedOthers(look, kept.frontier, entries, 0, Start(), event.width, kept.printed, id);
    hide Gone, FrontierAfter, Of, AllPrepared, AllCommitted, Segments, IdsOf;
    var (printed, pending) := AllPrepared(look, kept.frontier, entries, 0, Start(), event.width, kept.printed);
    assert pending[..|pending|] == pending;
    var end := CommittedOthers(Output(printed, [], [], None, flow.log, []), pending, 0, |pending|, event.running,
                               event.capacity, id);
    CommitNothing(end, pending, event.running, event.capacity);
  }

  /** What a receipt shows after an event that leaves nothing live. */
  lemma {:induction false} IdleStep(look: Look, flow: Flow, event: Event, id: string, text: string)
    requires Segments(look.g) && LiveKnown(flow) && flow.liveEntry.None? && Idle(event)
    requires Tracked(flow, id, None, text) && GrowsAt(event, id, None, text)
    ensures ReceiptShows(After(look, flow, event), id)
            <==> (ReceiptShows(flow, id) && !Lacks(event, id)) || Shows(event, id)
  {
    hide Drained, Tiles, Of, Spans, LineStart, FirstChar, DistinctIds, Segments, PlainBody, Resumes;
    if Lacks(event, id) {
      LackingDropped(look, flow, event, id);
    } else if event.Drain? {
      DrainTracked(look, flow, event.entries, event.running, event.width, event.capacity, id, None, text);
      if ReceiptShows(flow, id) {
        TilesShowOnce(text, Of(flow.log, id), 0, Reached(flow.printed[id]), 0);
        FirstCharStays(text, EntryOf(event.entries, id).value.text);
      }
    }
  }

  lemma {:induction false} FirstCharStays(text: string, text': string)
    requires text <= text' && FirstChar(text, 0) < |text|
    ensures FirstChar(text', 0) < |text'|
  {
    assert text'[FirstChar(text, 0)] == text[FirstChar(text, 0)];
  }

  /** While every event is idle, receipts can be read off the events. */
  lemma {:induction false} IdleRun(look: Look, flow: Flow, events: seq<Event>, earlier: seq<Piece>,
                                   current: seq<Piece>, id: string, text: string)
    requires Segments(look.g) && LiveKnown(flow) && flow.liveEntry.None? && flow.log == earlier + current
    requires forall i :: 0 <= i < |events| ==> Idle(events[i])
    requires Tracked(flow.(log := current), id, None, text) && Grows(events, id, None, text)
    ensures ShowsLater(look, flow, events, id) <==> ReceiptShows(flow, id) || ShowsIn(events, id)
    ensures PrintedAgain(look, flow, events, id, None)
            <==> (ReceiptShows(flow, id) && LacksThenShows(events, id)) || ComesBack(events, id)
    decreases |events|
  {
    hide Tracked, After, GrowsAt, ReceiptShows, Shows, Lacks, Idle, TextAfter, Segments, LiveKnown, ShowsIn,
      LacksThenShows, ComesBack, Forgets;
    if events == [] {
      NoEvents(id);
    } else {
      var event := events[0];
      var next := After(look, flow, event);
      IdleLeavesNothingLive(look, flow, event);
      AfterKnown(look, flow, event);
      FirstEvent(events, id);
      LacksForgets(flow, event, id);
      var before, since := StepTracked(look, flow, event, earlier, current, id, None, text);
      IdleStepLog(look, flow, event, earlier, current, id, text);
      IdleRun(look, next, events[1..], before, since, id, TextAfter(event, id, text));
    }
  }

  lemma {:induction false} NoEvents(id: string)
    ensures !ShowsIn([], id) && !LacksThenShows([], id) && !ComesBack([], id)
  {
  }

  lemma {:induction false} LacksForgets(flow: Flow, event: Event, id: string)
    requires flow.liveEntry.None?
    ensures ReceiptShows(flow, id) ==> (Forgets(flow, event, id, None) <==> Lacks(event, id))
    ensures Forgets(flow, event, id, None) ==> Lacks(event, id)
    ensures Lacks(event, id) ==> !Shows(event, id)
  {
  }

  lemma {:induction false} IdleStepLog(look: Look, flow: Flow, event: Event, earlier: seq<Piece>, current: seq<Piece>,
                                       id: string, text: string)
    requires Segments(look.g) && LiveKnown(flow) && flow.liveEntry.None? && Idle(event)
    requires flow.log == earlier + current
    requires Tracked(flow.(log := current), id, None, text) && GrowsAt(event, id, None, text)
    ensures ReceiptShows(After(look, flow, event), id)
            <==> (ReceiptShows(flow, id) && !Lacks(event, id)) || Shows(event, id)
  {
    hide Drained, Sealed, Tracked, GrowsAt, Segments, Shows, Lacks, Idle;
    var plain := flow.(log := current);
    SameLive(flow, current);
    AfterLog(look, plain, earlier, event);
    IdleStep(look, plain, event, id, text);
  }

  /**
   When every drain is idle the condition is one on the transcript alone: a character of an entry
   without a position is printed twice if and only if a drain has the entry with some text, a later
   one lacks it, and a still later one has it again.
   */
  lemma {:induction false} IdleOnce(look: Look, events: seq<Event>, id: string)
    requires Segments(look.g) && Grows(events, id, None, "") && forall i :: 0 <= i < |events| ==> Idle(events[i])
    ensures LiveKnown(NewFlow())
    ensures (forall at: nat :: TimesShown(Of(Run(look, NewFlow(), events).log, id), at) <= 1)
            <==> !ComesBack(events, id)
  {
    hide Run, RunText, TimesShown, Grows, PrintedAgain, Of, Tracked, ComesBack, LacksThenShows, Segments, Idle;
    NewTracked(id, None);
    ExactlyOnce(look, events, id, None);
    IdleRun(look, NewFlow(), events, [], [], id, "");
  }

  // ---------------------------------------------------------------- why removed entries need a position

  /** A flow that remembers no entry prints a new one in full, whatever was printed before. */
  lemma {:induction false} ForgetfulPrintsAll(look: Look, log: seq<Piece>, entry: Entry, width: nat, at: nat)
    requires Segments(look.g) && PlainBody(entry) && at < |entry.text| && entry.text[at] != '\n'
    ensures var end := Drained(look, NewFlow().(log := log), [entry], false, width, 0);
            && end.printed.Keys == {entry.id} && end.printed[entry.id].position == entry.position
            && end.frontier == None && end.liveEntry == None && end.tail == []
            && TimesShown(Of(end.log, entry.id), at) == TimesShown(Of(log, entry.id), at) + 1
  {
    hide EntryRows, Ranges, Of, Tiles, Kept, Ready, TimesShown, FirstBody, PlainBody;
    var flow := NewFlow().(log := log);
    assert Gone(flow, [entry]) == {};
    NothingGone(flow.frontier, flow.printed);
    assert Forgotten(flow, [entry]) == flow;
    var prepared := Prepared(look, None, None, entry, width, IsSeparated(Start(), entry));
    var labels := NewReady(look, None, entry, width, IsSeparated(Start(), entry));
    var (r, rows) := prepared.value;
    PrintedKept(look, r, entry, rows, [], width, labels, 0, false, 0);
    PreparedReceipts(look, None, [entry], 0, Start(), width, map[]);
    OnePrepared(look, entry, width);
    var ranges := Ranges(rows, r.base);
    assert rows[..|rows|] == rows && rows[|rows|..] == [];
    assert Ranges([], r.base) == [] by { NoRanges([], r.base); }
    assert [] + ranges + [] == ranges;
    TilesShowOnce(entry.text, ranges, 0, |entry.text|, at);
    OfConcat(log, Tagged(entry.id, ranges), entry.id);
    OfTagged(entry.id, ranges, entry.id);
    TimesConcat(Of(log, entry.id), ranges, at);
    OneCommittedIdle(map[entry.id := r], log, Pending(entry, rows), r);
  }

  lemma {:induction false} OnePrepared(look: Look, entry: Entry, width: nat)
    requires Segments(look.g)
    ensures var prepared := Prepared(look, None, None, entry, width, IsSeparated(Start(), entry));
            && prepared.Some?
            && AllPrepared(look, None, [entry], 0, Start(), width, map[])
               == (map[entry.id := prepared.value.0], [Pending(entry, prepared.value.1)])
  {
    hide EntryRows, StartAt;
    var entries := [entry];
    assert ReceiptOf(map[], entry.id) == None;
    var (r, rows) := Prepared(look, None, None, entry, width, IsSeparated(Start(), entry)).value;
    assert AllPrepared(look, None, entries, 1, Walked(Start(), entry), width,
                       map[][entry.id := r]) == (map[entry.id := r], []);
    assert [Pending(entry, rows)] + [] == [Pending(entry, rows)];
  }

  lemma {:induction false} OneCommittedIdle(printed: map<string, Receipt>, log: seq<Piece>, p: Pending, r: Receipt)
    requires printed == map[p.entry.id := r]
    ensures var out := AllCommitted(Output(printed, [], [], None, log, []), [p], 0, false, 0);
            && out.printed == map[p.entry.id := Printed(r, p.entry, p.rows, |p.rows|, false)]
            && out.log == log + Tagged(p.entry.id, Ranges(p.rows, r.base)) && out.liveEntry == None && out.tail == []
  {
    hide Ranges, Printed;
    assert p.rows[..|p.rows|] == p.rows && p.rows[|p.rows|..] == [];
    assert Ranges([], r.base) == [] by { NoRanges([], r.base); }
  }

  /** An entry without a position that leaves the transcript and comes back is printed a second time. */
  lemma {:induction false} UnpositionedPrintsTwice(look: Look, entry: Entry, width: nat, at: nat)
    requires Segments(look.g) && PlainBody(entry) && entry.position.None? && at < |entry.text| && entry.text[at] != '\n'
    ensures var there, gone := Drain([entry], false, width, 0), Drain([], false, width, 0);
            TimesShown(Of(Run(look, NewFlow(), [there, gone, there]).log, entry.id), at) == 2
  {
    hide Of, TimesShown, PlainBody, Segments;
    var there, gone := Drain([entry], false, width, 0), Drain([], false, width, 0);
    ForgetfulPrintsAll(look, [], entry, width, at);
    var once := After(look, NewFlow(), there);
    assert NewFlow().(log := []) == NewFlow();
    DropsUnpositioned(look, once, entry.id, width);
    var left := After(look, once, gone);
    ForgetfulPrintsAll(look, left.log, entry, width, at);
    hide Drained;
    assert [there, gone, there][1..] == [gone, there] && [gone, there][1..] == [there] && [there][1..] == [];
    var again := After(look, left, there);
    AfterKnown(look, NewFlow(), there);
    AfterKnown(look, once, gone);
    AfterKnown(look, left, there);
    assert Run(look, again, []) == again;
    assert Run(look, left, [there]) == Run(look, again, []);
    assert Run(look, once, [gone, there]) == Run(look, left, [there]);
    assert TimesShown(Of([], entry.id), at) == 0 by { NothingShown(entry.id, at); }
  }

  lemma {:induction false} NothingShown(id: string, at: nat)
    ensures TimesShown(Of([], id), at) == 0
  {
  }

  /** A drain without entries forgets a receipt without a position and leaves no trace of it. */
  lemma {:induction false} DropsUnpositioned(look: Look, flow: Flow, id: string, width: nat)
    requires Segments(look.g) && flow.printed.Keys == {id} && flow.printed[id].position == None
    requires flow.frontier == None && flow.liveEntry == None
    ensures Drained(look, flow, [], false, width, 0) == NewFlow().(log := flow.log)
  {
    var gone := Gone(flow, []);
    assert gone == {id};
    FrontierAny(flow.frontier, flow.printed, gone, id);
    assert gone - {id} == {};
    NothingGone(None, flow.printed);
    assert flow.printed - gone == map[];
  }
}
