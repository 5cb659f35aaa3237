/** All rows of a source range, what they keep of the text, and what an append does to them. */
module WrapRows {
  import opened Basics
  import opened Wrapping

  datatype Row = Row(start: nat, end: nat)

  function SliceOf(g: Segmenter, raw: string, next: nat, end: nat, width: nat, words: bool): (slice: Slice)
    requires Segments(g) && next < end <= |raw|
    ensures next <= slice.start <= slice.end <= slice.next <= end && next < slice.next
  {
    if words then WordSlice(g, raw, next, end, width)
    else
      var stop := HardEnd(g, raw, next, end, 0, width);
      Slice(next, stop, stop)
  }

  /** From-scratch wrapping of what is left of a range. */
  function RowsFrom(g: Segmenter, raw: string, next: nat, end: nat, width: nat, words: bool): (rows: seq<Row>)
    requires Segments(g) && next <= end <= |raw|
    ensures next < end ==> |rows| > 0
    decreases end - next
  {
    if next == end then []
    else
      var slice := SliceOf(g, raw, next, end, width, words);
      [Row(slice.start, slice.end)] + RowsFrom(g, raw, slice.next, end, width, words)
  }

  /** From-scratch wrapping of a range; an empty range is one empty row. */
  function WrapAll(g: Segmenter, raw: string, start: nat, end: nat, width: nat, words: bool): (rows: seq<Row>)
    requires Segments(g) && start <= end <= |raw|
    ensures |rows| > 0
  {
    if start == end then [Row(start, end)] else RowsFrom(g, raw, start, end, width, words)
  }

  lemma {:induction false} SliceOfSound(g: Segmenter, raw: string, next: nat, end: nat, width: nat, words: bool)
    requires Segments(g) && next < end <= |raw|
    ensures SliceSound(g, raw, next, end, SliceOf(g, raw, next, end, width, words), words)
  {
    if words {
      WordSliceSound(g, raw, next, end, width);
    } else {
      HardCuts(g, raw, next, end, 0, width);
    }
  }

  lemma {:induction false} SliceReaches(g: Segmenter, raw: string, next: nat, end: nat, width: nat, words: bool)
    requires Segments(g) && next < end <= |raw|
    ensures var slice := SliceOf(g, raw, next, end, width, words);
            Cut(g, raw, next, end, slice.start) && Cut(g, raw, next, end, slice.next)
  {
    hide SliceOf, Cut, Gap;
    var slice := SliceOf(g, raw, next, end, width, words);
    SliceOfSound(g, raw, next, end, width, words);
    CutTransitive(g, raw, next, end, slice.start, slice.end);
    CutTransitive(g, raw, next, end, slice.end, slice.next);
  }

  /** Rows in order from `from` on: disjoint, nothing but white space between them or at either end. */
  predicate Covers(raw: string, rows: seq<Row>, from: nat, end: nat, words: bool)
    requires end <= |raw|
  {
    if rows == [] then Gap(raw, from, end, words)
    else
      && from <= rows[0].start <= rows[0].end <= end
      && Gap(raw, from, rows[0].start, words)
      && Covers(raw, rows[1..], rows[0].end, end, words)
  }

  lemma {:induction false} CoversFromGap(raw: string, rows: seq<Row>, from: nat, next: nat, end: nat, words: bool)
    requires from <= next <= end <= |raw| && Gap(raw, from, next, words) && Covers(raw, rows, next, end, words)
    ensures Covers(raw, rows, from, end, words)
  {
  }

  /** The rows cover the range: ordered, disjoint, and only white space falls between them. */
  lemma {:induction false} RowsCover(g: Segmenter, raw: string, next: nat, end: nat, width: nat, words: bool)
    requires Segments(g) && next <= end <= |raw|
    ensures Covers(raw, RowsFrom(g, raw, next, end, width, words), next, end, words)
    decreases end - next
  {
    hide SliceOf, Cut;
    if next < end {
      var slice := SliceOf(g, raw, next, end, width, words);
      SliceOfSound(g, raw, next, end, width, words);
      RowsCover(g, raw, slice.next, end, width, words);
      var rest := RowsFrom(g, raw, slice.next, end, width, words);
      CoversFromGap(raw, rest, slice.end, slice.next, end, words);
      var rows := [Row(slice.start, slice.end)] + rest;
      assert rows[1..] == rest;
    }
  }

  /** Hard rows drop nothing at all: each begins where the one before it ends. */
  lemma {:induction false} HardRowsAbut(g: Segmenter, raw: string, next: nat, end: nat, width: nat, i: nat)
    requires Segments(g) && next <= end <= |raw|
    requires i < |RowsFrom(g, raw, next, end, width, false)|
    ensures var rows := RowsFrom(g, raw, next, end, width, false);
            && rows[i].start == (if i == 0 then next else rows[i - 1].end)
            && rows[i].start < rows[i].end
            && (i + 1 == |rows| <==> rows[i].end == end)
            && rows[i].end <= end
    decreases end - next
  {
    var slice := SliceOf(g, raw, next, end, width, false);
    var rest := RowsFrom(g, raw, slice.next, end, width, false);
    var rows := RowsFrom(g, raw, next, end, width, false);
    assert rows == [Row(slice.start, slice.end)] + rest;
    if i > 0 {
      HardRowsAbut(g, raw, slice.next, end, width, i - 1);
    } else if rest != [] {
      HardRowsAbut(g, raw, slice.next, end, width, 0);
    }
  }

  /** A row is empty only when it is the last, after white space that reaches the end. */
  lemma {:induction false} RowsNonEmpty(g: Segmenter, raw: string, next: nat, end: nat, width: nat, words: bool, i: nat)
    requires Segments(g) && next <= end <= |raw|
    requires i < |RowsFrom(g, raw, next, end, width, words)|
    ensures var rows := RowsFrom(g, raw, next, end, width, words);
            && next <= rows[i].start <= rows[i].end <= end
            && (i > 0 ==> rows[i - 1].end <= rows[i].start)
            && (rows[i].start == rows[i].end ==> i + 1 == |rows| && rows[i].end == end)
            && Cut(g, raw, next, end, rows[i].start)
    decreases end - next
  {
    hide SliceOf;
    var slice := SliceOf(g, raw, next, end, width, words);
    SliceOfSound(g, raw, next, end, width, words);
    var rest := RowsFrom(g, raw, slice.next, end, width, words);
    var rows := RowsFrom(g, raw, next, end, width, words);
    assert rows == [Row(slice.start, slice.end)] + rest;
    if i > 0 {
      RowsNonEmpty(g, raw, slice.next, end, width, words, i - 1);
      CutTransitive(g, raw, next, end, slice.start, slice.end);
      CutTransitive(g, raw, next, end, slice.end, slice.next);
      CutTransitive(g, raw, next, end, slice.next, rows[i].start);
    }
  }

  /** Each row fits, or is one grapheme wider than the row, exactly when it does not overrun. */
  lemma {:induction false} RowsFit(g: Segmenter, raw: string, next: nat, end: nat, width: nat, words: bool, i: nat)
    requires Segments(g) && next <= end <= |raw|
    requires i < |RowsFrom(g, raw, next, end, width, words)|
    ensures var row := RowsFrom(g, raw, next, end, width, words)[i];
            && row.start <= row.end <= end
            && (Fits(g, raw, row.start, row.end, end, width) <==> !RowOverruns(g, raw, row.start, end, width, words))
    decreases end - next
  {
    hide WordSlice, HardEnd, Fits, Cut, RowOverruns;
    var slice := SliceOf(g, raw, next, end, width, words);
    if i == 0 {
      if words {
        WordSliceFits(g, raw, next, end, width);
      } else {
        HardSliceFits(g, raw, next, end, width);
      }
    } else {
      RowsFit(g, raw, slice.next, end, width, words, i - 1);
    }
  }

  lemma {:induction false} HardSliceFits(g: Segmenter, raw: string, next: nat, end: nat, width: nat)
    requires Segments(g) && next < end <= |raw|
    ensures Fits(g, raw, next, HardEnd(g, raw, next, end, 0, width), end, width)
            <==> !RowOverruns(g, raw, next, end, width, false)
  {
    hide Fits, HardOverruns;
    HardFits(g, raw, next, end, width);
  }

  /** So every row fits where no grapheme is without cells. */
  lemma {:induction false} PositiveRowsFit(g: Segmenter, raw: string, next: nat, end: nat, width: nat, words: bool,
                                           i: nat)
    requires Segments(g) && next <= end <= |raw| && Positive(g, raw, next, end)
    requires i < |RowsFrom(g, raw, next, end, width, words)|
    ensures var row := RowsFrom(g, raw, next, end, width, words)[i];
            row.end <= end && Fits(g, raw, row.start, row.end, end, width)
  {
    hide Fits, Cut, Positive, RowOverruns;
    RowsFit(g, raw, next, end, width, words, i);
    RowCut(g, raw, next, end, width, words, i);
    var row := RowsFrom(g, raw, next, end, width, words)[i];
    PositiveAt(g, raw, next, end, row.start);
    PositiveFits(g, raw, row.start, end, width, words);
  }

  /** Rows start at grapheme cuts. */
  lemma {:induction false} RowCut(g: Segmenter, raw: string, next: nat, end: nat, width: nat, words: bool, i: nat)
    requires Segments(g) && next <= end <= |raw|
    requires i < |RowsFrom(g, raw, next, end, width, words)|
    ensures Cut(g, raw, next, end, RowsFrom(g, raw, next, end, width, words)[i].start)
    decreases end - next
  {
    hide SliceOf, Cut;
    var slice := SliceOf(g, raw, next, end, width, words);
    SliceReaches(g, raw, next, end, width, words);
    if i > 0 {
      RowCut(g, raw, slice.next, end, width, words, i - 1);
      CutTransitive(g, raw, next, end, slice.next, RowsFrom(g, raw, next, end, width, words)[i].start);
    }
  }

  // ---------------------------------------------------------------- appending at a grapheme boundary

  /** From `pos` on, the longer text has the graphemes of the shorter one and then more. */
  ghost predicate Stable(g: Segmenter, raw: string, raw': string, pos: nat)
    requires Segments(g) && raw <= raw'
    decreases |raw| - pos
  {
    if pos >= |raw| then pos == |raw|
    else
      && PartAt(g, raw, pos, |raw|) == PartAt(g, raw', pos, |raw'|)
      && Stable(g, raw, raw', pos + PartAt(g, raw, pos, |raw|).len)
  }

  lemma {:induction false} StableAt(g: Segmenter, raw: string, raw': string, pos: nat, p: nat)
    requires Segments(g) && raw <= raw' && Stable(g, raw, raw', pos) && Cut(g, raw, pos, |raw|, p)
    ensures Stable(g, raw, raw', p) && Cut(g, raw', pos, |raw'|, p)
    decreases |raw| - pos
  {
    if pos < p {
      StableAt(g, raw, raw', pos + PartAt(g, raw, pos, |raw|).len, p);
    }
  }

  lemma {:induction false} WhiteStable(g: Segmenter, raw: string, raw': string, pos: nat)
    requires Segments(g) && raw <= raw' && Stable(g, raw, raw', pos) && pos < |raw|
    ensures WhiteAt(g, raw', pos, |raw'|) == WhiteAt(g, raw, pos, |raw|)
  {
    var stop := pos + PartAt(g, raw, pos, |raw|).len;
    assert raw[pos..stop] == raw'[pos..stop];
  }

  /** A run that ends inside the old text is unchanged; one that reaches its end carries on. */
  lemma {:induction false} RunStable(g: Segmenter, raw: string, raw': string, pos: nat, white: bool, used: nat,
                                     limit: Option<nat>)
    requires Segments(g) && raw <= raw' && Stable(g, raw, raw', pos) && pos <= |raw|
    ensures var run := RunFrom(g, raw, pos, |raw|, white, used, limit);
            RunFrom(g, raw', pos, |raw'|, white, used, limit)
              == if run.end < |raw| then run else RunFrom(g, raw', |raw|, |raw'|, white, run.width, limit)
    decreases |raw| - pos
  {
    hide WhiteAt, PartAt, Segments;
    if pos < |raw| {
      WhiteStable(g, raw, raw', pos);
      var part := PartAt(g, raw, pos, |raw|);
      if WhiteAt(g, raw, pos, |raw|) == white && !Exceeds(used + part.width, limit) {
        RunStable(g, raw, raw', pos + part.len, white, used + part.width, limit);
      }
    }
  }

  lemma {:induction false} HardStable(g: Segmenter, raw: string, raw': string, pos: nat, used: nat, width: nat)
    requires Segments(g) && raw <= raw' && Stable(g, raw, raw', pos) && pos <= |raw|
    requires HardEnd(g, raw, pos, |raw|, used, width) < |raw|
    ensures HardEnd(g, raw', pos, |raw'|, used, width) == HardEnd(g, raw, pos, |raw|, used, width)
    decreases |raw| - pos
  {
    hide PartAt, Segments;
    var part := PartAt(g, raw, pos, |raw|);
    if !(used > 0 && used + part.width > width) {
      HardStable(g, raw, raw', pos + part.len, used + part.width, width);
    }
  }

  lemma {:induction false} RunKept(g: Segmenter, raw: string, raw': string, pos: nat, white: bool, limit: Option<nat>)
    requires Segments(g) && raw <= raw' && Stable(g, raw, raw', pos) && pos <= |raw|
    requires RunFrom(g, raw, pos, |raw|, white, 0, limit).end < |raw|
    ensures var run := RunFrom(g, raw, pos, |raw|, white, 0, limit);
            RunFrom(g, raw', pos, |raw'|, white, 0, limit) == run && Stable(g, raw, raw', run.end)
  {
    hide RunFrom, Stable, Cut, WidthOf, WhiteAt, PartAt, Segments;
    RunStable(g, raw, raw', pos, white, 0, limit);
    RunCuts(g, raw, pos, |raw|, white, 0, limit);
    StableAt(g, raw, raw', pos, RunFrom(g, raw, pos, |raw|, white, 0, limit).end);
  }

  lemma {:induction false} WordRowStable(g: Segmenter, raw: string, raw': string, rowStart: nat, position: nat,
                                         used: nat, width: nat)
    requires Segments(g) && raw <= raw' && rowStart < position <= |raw| && Stable(g, raw, raw', position)
    requires WordRow(g, raw, rowStart, position, used, |raw|, width).next < |raw|
    ensures WordRow(g, raw', rowStart, position, used, |raw'|, width)
         == WordRow(g, raw, rowStart, position, used, |raw|, width)
    decreases |raw| - position
  {
    hide RunFrom, Stable, Segments, WordRow;
    WordRowTurn(g, raw, rowStart, position, used, |raw|, width);
    WordRowTurn(g, raw', rowStart, position, used, |raw'|, width);
    var gap := RunFrom(g, raw, position, |raw|, true, 0, None);
    if gap.end < |raw| {
      RunKept(g, raw, raw', position, true, None);
      var left := if width >= used + gap.width then width - used - gap.width else 0;
      var word := RunFrom(g, raw, gap.end, |raw|, false, 0, Some(left));
      if position < gap.end && word.end < |raw| {
        RunKept(g, raw, raw', gap.end, false, Some(left));
        if word.complete && word.end > gap.end {
          WordRowStable(g, raw, raw', rowStart, word.end, used + gap.width + word.width, width);
        }
      }
    }
  }

  /** A slice whose successor still begins inside the old text does not depend on what follows it. */
  lemma {:induction false} SliceStable(g: Segmenter, raw: string, raw': string, next: nat, width: nat, words: bool)
    requires Segments(g) && raw <= raw' && next < |raw| && Stable(g, raw, raw', next)
    requires SliceOf(g, raw, next, |raw|, width, words).next < |raw|
    ensures SliceOf(g, raw', next, |raw'|, width, words) == SliceOf(g, raw, next, |raw|, width, words)
  {
    hide RunFrom, WordRow;
    if words {
      var rowStart := RunFrom(g, raw, next, |raw|, true, 0, None).end;
      RunCuts(g, raw, next, |raw|, true, 0, None);
      RunStable(g, raw, raw', next, true, 0, None);
      StableAt(g, raw, raw', next, rowStart);
      var first := RunFrom(g, raw, rowStart, |raw|, false, 0, Some(width));
      RunCuts(g, raw, rowStart, |raw|, false, 0, Some(width));
      RunStable(g, raw, raw', rowStart, false, 0, Some(width));
      if first.complete && first.end > rowStart {
        StableAt(g, raw, raw', rowStart, first.end);
        WordRowStable(g, raw, raw', rowStart, first.end, first.width, width);
      }
    } else {
      HardStable(g, raw, raw', next, 0, width);
    }
  }

  /** Without a limit the cells already counted do not matter. */
  lemma {:induction false} RunEndUsed(g: Segmenter, raw: string, pos: nat, end: nat, white: bool, used: nat, used': nat)
    requires Segments(g) && pos <= end <= |raw|
    ensures RunFrom(g, raw, pos, end, white, used, None).end == RunFrom(g, raw, pos, end, white, used', None).end
    decreases end - pos
  {
    hide WhiteAt;
    if pos < end && WhiteAt(g, raw, pos, end) == white {
      var part := PartAt(g, raw, pos, end);
      RunEndUsed(g, raw, pos + part.len, end, white, used + part.width, used' + part.width);
    }
  }

  lemma {:induction false} WordSliceFromStart(g: Segmenter, raw: string, next: nat, from: nat, width: nat)
    requires Segments(g) && next <= from < |raw|
    requires RunFrom(g, raw, next, |raw|, true, 0, None).end == RunFrom(g, raw, from, |raw|, true, 0, None).end
    ensures WordSlice(g, raw, next, |raw|, width) == WordSlice(g, raw, from, |raw|, width)
  {
  }

  /** The last row may be measured again from its own first character, skipped white space or not. */
  lemma {:induction false} LastSliceAgain(g: Segmenter, raw: string, raw': string, next: nat, width: nat, words: bool)
    requires Segments(g) && raw < raw' && next < |raw| && Stable(g, raw, raw', next)
    ensures var from := SliceOf(g, raw, next, |raw|, width, words).start;
            SliceOf(g, raw', next, |raw'|, width, words) == SliceOf(g, raw', from, |raw'|, width, words)
  {
    hide RunFrom, WordRow, HardEnd;
    if words {
      var rowStart := RunFrom(g, raw, next, |raw|, true, 0, None).end;
      RunCuts(g, raw, next, |raw|, true, 0, None);
      RunStable(g, raw, raw', next, true, 0, None);
      StableAt(g, raw, raw', next, rowStart);
      if rowStart < |raw| {
        RunStops(g, raw, next, |raw|, true, 0, None);
        WhiteStable(g, raw, raw', rowStart);
        NoRun(g, raw', rowStart, |raw'|);
      } else {
        RunEndUsed(g, raw', |raw|, |raw'|, true, RunFrom(g, raw, next, |raw|, true, 0, None).width, 0);
      }
      WordSliceFromStart(g, raw', next, rowStart, width);
    }
  }

  lemma {:induction false} NoRun(g: Segmenter, raw: string, pos: nat, end: nat)
    requires Segments(g) && pos < end <= |raw| && !WhiteAt(g, raw, pos, end)
    ensures RunFrom(g, raw, pos, end, true, 0, None).end == pos
  {
  }

  lemma {:induction false} RowsStep(g: Segmenter, raw: string, next: nat, end: nat, width: nat, words: bool)
    requires Segments(g) && next < end <= |raw|
    ensures var slice := SliceOf(g, raw, next, end, width, words);
            RowsFrom(g, raw, next, end, width, words)
              == [Row(slice.start, slice.end)] + RowsFrom(g, raw, slice.next, end, width, words)
  {
  }

  lemma {:induction false} ReplaceLast(first: Row, rest: seq<Row>, again: seq<Row>)
    requires rest != []
    ensures var rows := [first] + rest;
            && rows[|rows| - 1] == rest[|rest| - 1]
            && [first] + (rest[..|rest| - 1] + again) == rows[..|rows| - 1] + again
  {
  }

  /**
   Appending at a grapheme boundary keeps every row but the last; the last is measured again from
   where it began.
   */
  lemma {:induction false} AppendRows(g: Segmenter, raw: string, raw': string, next: nat, width: nat, words: bool)
    requires Segments(g) && raw < raw' && next < |raw| && Stable(g, raw, raw', next)
    ensures var rows := RowsFrom(g, raw, next, |raw|, width, words);
            var from := rows[|rows| - 1].start;
            && next <= from <= |raw|
            && Cut(g, raw, next, |raw|, from)
            && RowsFrom(g, raw', next, |raw'|, width, words)
                 == rows[..|rows| - 1] + RowsFrom(g, raw', from, |raw'|, width, words)
    decreases |raw| - next
  {
    hide SliceOf, Stable, Cut, RowsFrom;
    var slice := SliceOf(g, raw, next, |raw|, width, words);
    SliceReaches(g, raw, next, |raw|, width, words);
    RowsStep(g, raw, next, |raw|, width, words);
    RowsStep(g, raw', next, |raw'|, width, words);
    if slice.next < |raw| {
      StableAt(g, raw, raw', next, slice.next);
      SliceStable(g, raw, raw', next, width, words);
      AppendRows(g, raw, raw', slice.next, width, words);
      var rest := RowsFrom(g, raw, slice.next, |raw|, width, words);
      var from := rest[|rest| - 1].start;
      CutTransitive(g, raw, next, |raw|, slice.next, from);
      ReplaceLast(Row(slice.start, slice.end), rest, RowsFrom(g, raw', from, |raw'|, width, words));
    } else {
      NoRowsLeft(g, raw, width, words);
      LastSliceAgain(g, raw, raw', next, width, words);
      RowsStep(g, raw', slice.start, |raw'|, width, words);
    }
  }

  lemma {:induction false} NoRowsLeft(g: Segmenter, raw: string, width: nat, words: bool)
    requires Segments(g)
    ensures RowsFrom(g, raw, |raw|, |raw|, width, words) == []
  {
  }
}
