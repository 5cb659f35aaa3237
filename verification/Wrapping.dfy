/**
 Wrapping one line into display rows.

 The segmenter is a parameter: it gives the length and the cell width of the first grapheme of a
 text (grapheme clusters as in section 3 of UAX #29). Offsets are relative to the line.
 */
module Wrapping {
  import opened Basics

  datatype Part = Part(len: nat, width: nat)

  type Segmenter = string -> Part

  /** A grapheme is not empty and does not reach past the text it is the first of. */
  ghost predicate Segments(g: Segmenter) {
    forall s: string :: |s| > 0 ==> 1 <= g(s).len <= |s|
  }

  function PartAt(g: Segmenter, raw: string, pos: nat, end: nat): (part: Part)
    requires pos <= end <= |raw|
    ensures Segments(g) && pos < end ==> 1 <= part.len <= end - pos
  {
    g(raw[pos..end])
  }

  /** The graphemes from `s` on cut the line at `p`. */
  ghost predicate Cut(g: Segmenter, raw: string, s: nat, end: nat, p: nat)
    requires Segments(g) && end <= |raw|
    decreases end - s
  {
    s == p || (s < p <= end && Cut(g, raw, s + PartAt(g, raw, s, end).len, end, p))
  }

  lemma {:induction false} CutHere(g: Segmenter, raw: string, end: nat, p: nat)
    requires Segments(g) && end <= |raw|
    ensures Cut(g, raw, p, end, p)
  {
  }

  lemma {:induction false} CutTransitive(g: Segmenter, raw: string, s: nat, end: nat, p: nat, q: nat)
    requires Segments(g) && end <= |raw|
    requires Cut(g, raw, s, end, p) && Cut(g, raw, p, end, q)
    ensures Cut(g, raw, s, end, q)
    decreases end - s
  {
    if s < p {
      CutOrdered(g, raw, p, end, q);
      CutTransitive(g, raw, s + PartAt(g, raw, s, end).len, end, p, q);
    }
  }

  lemma {:induction false} CutOrdered(g: Segmenter, raw: string, s: nat, end: nat, p: nat)
    requires Segments(g) && end <= |raw| && Cut(g, raw, s, end, p)
    ensures s <= p && (s < p ==> p <= end)
  {
  }

  lemma {:induction false} CutStep(g: Segmenter, raw: string, s: nat, end: nat, p: nat)
    requires Segments(g) && end <= |raw| && s <= p < end && Cut(g, raw, s, end, p)
    ensures Cut(g, raw, s, end, p + PartAt(g, raw, p, end).len)
  {
    var q := p + PartAt(g, raw, p, end).len;
    assert Cut(g, raw, q, end, q);
    assert Cut(g, raw, p, end, q);
    CutTransitive(g, raw, s, end, p, q);
  }

  /** Cells taken by the graphemes from `pos` up to the cut `stop`. */
  function WidthOf(g: Segmenter, raw: string, pos: nat, stop: nat, end: nat): nat
    requires stop <= end <= |raw|
    decreases stop - pos
  {
    if pos >= stop then 0
    else
      var part := PartAt(g, raw, pos, end);
      if part.len == 0 then 0 else part.width + WidthOf(g, raw, pos + part.len, stop, end)
  }

  lemma {:induction false} WidthAdds(g: Segmenter, raw: string, pos: nat, mid: nat, stop: nat, end: nat)
    requires Segments(g) && mid <= stop <= end <= |raw|
    requires Cut(g, raw, pos, end, mid)
    ensures WidthOf(g, raw, pos, stop, end) == WidthOf(g, raw, pos, mid, end) + WidthOf(g, raw, mid, stop, end)
    decreases mid - pos
  {
    if pos < mid {
      WidthAdds(g, raw, pos + PartAt(g, raw, pos, end).len, mid, stop, end);
    }
  }

  // ---------------------------------------------------------------- the hard wrap

  function HardEnd(g: Segmenter, raw: string, pos: nat, end: nat, used: nat, width: nat): (stop: nat)
    requires Segments(g) && pos <= end <= |raw|
    ensures pos <= stop <= end
    ensures pos < end && used == 0 ==> pos < stop
    decreases end - pos
  {
    if pos == end then end
    else
      var part := PartAt(g, raw, pos, end);
      if used > 0 && used + part.width > width then pos
      else HardEnd(g, raw, pos + part.len, end, used + part.width, width)
  }

  method NextHardBoundary(g: Segmenter, raw: string, start: nat, end: nat, width: nat) returns (stop: nat)
    requires Segments(g) && start <= end <= |raw|
    ensures stop == HardEnd(g, raw, start, end, 0, width)
  {
    hide PartAt, Segments;
    if start >= end {
      return end;
    }
    var used: nat, position: nat := 0, start;
    stop := start;
    while position < end
      invariant start <= position == stop <= end
      invariant HardEnd(g, raw, position, end, used, width) == HardEnd(g, raw, start, end, 0, width)
    {
      var part := PartAt(g, raw, position, end);
      if used > 0 && used + part.width > width {
        return position;
      }
      used := used + part.width;
      position := position + part.len;
      stop := position;
    }
  }

  // ---------------------------------------------------------------- runs of white space and of words

  datatype Run = Run(end: nat, width: nat, complete: bool)

  predicate IsWhite(text: string) {
    |text| > 0 && AllSpace(text)
  }

  predicate WhiteAt(g: Segmenter, raw: string, pos: nat, end: nat)
    requires Segments(g) && pos < end <= |raw|
  {
    IsWhite(raw[pos..pos + PartAt(g, raw, pos, end).len])
  }

  /** A limit of None is infinite. */
  predicate Exceeds(width: nat, limit: Option<nat>) {
    limit.Some? && width > limit.value
  }

  /** The longest run of graphemes of one kind from `pos`, within a width limit. */
  function RunFrom(g: Segmenter, raw: string, pos: nat, end: nat, white: bool, used: nat,
                   limit: Option<nat>): (run: Run)
    requires Segments(g) && pos <= end <= |raw|
    ensures pos <= run.end <= end
    ensures !run.complete ==> run.end < end
    decreases end - pos
  {
    if pos == end then Run(end, used, true)
    else
      var part := PartAt(g, raw, pos, end);
      if WhiteAt(g, raw, pos, end) != white then Run(pos, used, true)
      else if Exceeds(used + part.width, limit) then Run(pos, used, false)
      else RunFrom(g, raw, pos + part.len, end, white, used + part.width, limit)
  }

  method ScanRun(g: Segmenter, raw: string, runStart: nat, sourceEnd: nat, white: bool, limit: Option<nat>)
    returns (run: Run)
    requires Segments(g) && runStart <= sourceEnd <= |raw|
    ensures run == RunFrom(g, raw, runStart, sourceEnd, white, 0, limit)
  {
    hide WhiteAt, Exceeds, PartAt, Segments, Cut, WidthOf;
    var end: nat, used: nat, position: nat := runStart, 0, runStart;
    while position < sourceEnd
      invariant runStart <= position == end <= sourceEnd
      invariant RunFrom(g, raw, position, sourceEnd, white, used, limit)
             == RunFrom(g, raw, runStart, sourceEnd, white, 0, limit)
    {
      var part := PartAt(g, raw, position, sourceEnd);
      if WhiteAt(g, raw, position, sourceEnd) != white {
        return Run(end, used, true);
      }
      if Exceeds(used + part.width, limit) {
        return Run(end, used, false);
      }
      used := used + part.width;
      end := position + part.len;
      position := end;
    }
    return Run(end, used, true);
  }

  /** A run ends at a cut, and its width is that of the graphemes it holds. */
  lemma {:induction false} RunCuts(g: Segmenter, raw: string, pos: nat, end: nat, white: bool, used: nat,
                                   limit: Option<nat>)
    requires Segments(g) && pos <= end <= |raw|
    ensures var run := RunFrom(g, raw, pos, end, white, used, limit);
            && Cut(g, raw, pos, end, run.end)
            && run.width == used + WidthOf(g, raw, pos, run.end, end)
            && (!Exceeds(used, limit) ==> !Exceeds(run.width, limit))
    decreases end - pos
  {
    hide IsWhite;
    if pos < end && WhiteAt(g, raw, pos, end) == white {
      var part := PartAt(g, raw, pos, end);
      if !Exceeds(used + part.width, limit) {
        RunCuts(g, raw, pos + part.len, end, white, used + part.width, limit);
      }
    }
  }

  ghost predicate SpaceIn(raw: string, from: nat, to: nat)
    requires to <= |raw|
  {
    forall k :: from <= k < to ==> IsSpace(raw[k])
  }

  lemma {:induction false} SpaceInSlice(raw: string, from: nat, to: nat)
    requires from <= to <= |raw| && AllSpace(raw[from..to])
    ensures SpaceIn(raw, from, to)
  {
    hide IsSpace;
    var slice := raw[from..to];
    forall k | from <= k < to ensures IsSpace(raw[k]) {
      assert slice[k - from] == raw[k];
    }
  }

  lemma {:induction false} WhiteIsSpace(g: Segmenter, raw: string, pos: nat, end: nat)
    requires Segments(g) && pos < end <= |raw| && WhiteAt(g, raw, pos, end)
    ensures SpaceIn(raw, pos, pos + PartAt(g, raw, pos, end).len)
  {
    hide IsSpace, AllSpace, PartAt, Segments, SpaceIn;
    SpaceInSlice(raw, pos, pos + PartAt(g, raw, pos, end).len);
  }

  lemma {:induction false} RunIsSpace(g: Segmenter, raw: string, pos: nat, end: nat, used: nat, limit: Option<nat>)
    requires Segments(g) && pos <= end <= |raw|
    ensures SpaceIn(raw, pos, RunFrom(g, raw, pos, end, true, used, limit).end)
    decreases end - pos
  {
    hide IsSpace, PartAt, Segments, WhiteAt, Cut, WidthOf;
    if pos < end && WhiteAt(g, raw, pos, end) {
      var part := PartAt(g, raw, pos, end);
      if !Exceeds(used + part.width, limit) {
        WhiteIsSpace(g, raw, pos, end);
        RunIsSpace(g, raw, pos + part.len, end, used + part.width, limit);
      }
    }
  }

  /** A run stops at a grapheme of the other kind, at the limit, or at the end. */
  lemma {:induction false} RunStops(g: Segmenter, raw: string, pos: nat, end: nat, white: bool, used: nat,
                                    limit: Option<nat>)
    requires Segments(g) && pos <= end <= |raw|
    ensures var run := RunFrom(g, raw, pos, end, white, used, limit);
            && (run.end < end ==> (WhiteAt(g, raw, run.end, end) == white <==> !run.complete))
            && (limit.None? ==> run.complete)
            && (pos < end && WhiteAt(g, raw, pos, end) == white && run.complete ==> pos < run.end)
    decreases end - pos
  {
    hide WhiteAt;
    if pos < end && WhiteAt(g, raw, pos, end) == white {
      var part := PartAt(g, raw, pos, end);
      if !Exceeds(used + part.width, limit) {
        RunStops(g, raw, pos + part.len, end, white, used + part.width, limit);
      }
    }
  }

  // ---------------------------------------------------------------- the word wrap

  /** One row's source range and where the next row's search begins. */
  datatype Slice = Slice(start: nat, end: nat, next: nat)

  /** A row that already holds whole words up to `position` takes further words while they fit. */
  function WordRow(g: Segmenter, raw: string, rowStart: nat, position: nat, used: nat, end: nat,
                   width: nat): (slice: Slice)
    requires Segments(g) && rowStart < position <= end <= |raw|
    ensures slice.start == rowStart && position <= slice.end <= slice.next <= end
    decreases end - position
  {
    if position == end then Slice(rowStart, position, position)
    else
      var gap := RunFrom(g, raw, position, end, true, 0, None);
      if gap.end == position then Slice(rowStart, position, position)
      else if gap.end >= end then
        if used + gap.width <= width then Slice(rowStart, gap.end, gap.end) else Slice(rowStart, position, gap.end)
      else
        var left := if width >= used + gap.width then width - used - gap.width else 0;
        var word := RunFrom(g, raw, gap.end, end, false, 0, Some(left));
        if !word.complete || word.end == gap.end then Slice(rowStart, position, gap.end)
        else WordRow(g, raw, rowStart, word.end, used + gap.width + word.width, end, width)
  }

  function WordSlice(g: Segmenter, raw: string, next: nat, end: nat, width: nat): (slice: Slice)
    requires Segments(g) && next <= end <= |raw|
    ensures next <= slice.start <= slice.end <= slice.next <= end
    ensures next < end ==> next < slice.next
  {
    if next >= end then Slice(end, end, end)
    else
      var rowStart := RunFrom(g, raw, next, end, true, 0, None).end;
      if rowStart >= end then Slice(end, end, end)
      else
        var first := RunFrom(g, raw, rowStart, end, false, 0, Some(width));
        if !first.complete && first.end > rowStart then Slice(rowStart, first.end, first.end)
        else if !first.complete || first.end == rowStart then
          var stop := rowStart + PartAt(g, raw, rowStart, end).len;
          Slice(rowStart, stop, stop)
        else WordRow(g, raw, rowStart, first.end, first.width, end, width)
  }

  /** One turn of the loop that takes words. */
  lemma {:induction false} WordRowTurn(g: Segmenter, raw: string, rowStart: nat, position: nat, used: nat, end: nat,
                                       width: nat)
    requires Segments(g) && rowStart < position <= end <= |raw|
    ensures WordRow(g, raw, rowStart, position, used, end, width)
         == if position == end then Slice(rowStart, position, position)
            else
              var gap := RunFrom(g, raw, position, end, true, 0, None);
              if gap.end == position then Slice(rowStart, position, position)
              else if gap.end >= end then
                Slice(rowStart, if used + gap.width <= width then gap.end else position, gap.end)
              else
                var left := if width >= used + gap.width then width - used - gap.width else 0;
                var word := RunFrom(g, raw, gap.end, end, false, 0, Some(left));
                if !word.complete || word.end == gap.end then Slice(rowStart, position, gap.end)
                else WordRow(g, raw, rowStart, word.end, used + gap.width + word.width, end, width)
  {
    hide RunFrom, Segments;
  }

  /** The loop that adds whole words to a row while they fit. */
  method TakeWords(g: Segmenter, raw: string, rowStart: nat, firstEnd: nat, firstUsed: nat, sourceEnd: nat, width: nat)
    returns (slice: Slice)
    requires Segments(g) && rowStart < firstEnd <= sourceEnd <= |raw|
    ensures slice == WordRow(g, raw, rowStart, firstEnd, firstUsed, sourceEnd, width)
  {
    hide RunFrom, WhiteAt, WidthOf, Cut;
    var used: nat, position: nat := firstUsed, firstEnd;
    while position < sourceEnd
      invariant rowStart < position <= sourceEnd
      invariant WordRow(g, raw, rowStart, position, used, sourceEnd, width)
             == WordRow(g, raw, rowStart, firstEnd, firstUsed, sourceEnd, width)
    {
      var gap := ScanRun(g, raw, position, sourceEnd, true, None);
      if gap.end == position {
        return Slice(rowStart, position, position);
      }
      if gap.end >= sourceEnd {
        if used + gap.width <= width {
          return Slice(rowStart, gap.end, gap.end);
        }
        return Slice(rowStart, position, gap.end);
      }
      var left := if width >= used + gap.width then width - used - gap.width else 0;
      var nextToken := ScanRun(g, raw, gap.end, sourceEnd, false, Some(left));
      if !nextToken.complete {
        return Slice(rowStart, position, gap.end);
      }
      if nextToken.end == gap.end {
        return Slice(rowStart, position, gap.end);
      }
      used := used + gap.width + nextToken.width;
      position := nextToken.end;
    }
    return Slice(rowStart, position, position);
  }

  method NextWordSlice(g: Segmenter, raw: string, nextSource: nat, sourceEnd: nat, width: nat) returns (slice: Slice)
    requires Segments(g) && nextSource <= sourceEnd <= |raw|
    ensures slice == WordSlice(g, raw, nextSource, sourceEnd, width)
  {
    hide RunFrom, WhiteAt, WidthOf, Cut;
    if nextSource >= sourceEnd {
      return Slice(sourceEnd, sourceEnd, sourceEnd);
    }
    var rowStart := nextSource;
    var leading := ScanRun(g, raw, rowStart, sourceEnd, true, None);
    if leading.end > rowStart {
      rowStart := leading.end;
    }
    if rowStart >= sourceEnd {
      return Slice(sourceEnd, sourceEnd, sourceEnd);
    }
    var firstToken := ScanRun(g, raw, rowStart, sourceEnd, false, Some(width));
    if !firstToken.complete {
      if firstToken.end > rowStart {
        return Slice(rowStart, firstToken.end, firstToken.end);
      }
      var first := PartAt(g, raw, rowStart, sourceEnd);
      return Slice(rowStart, rowStart + first.len, rowStart + first.len);
    }
    if firstToken.end == rowStart {
      var first := PartAt(g, raw, rowStart, sourceEnd);
      return Slice(rowStart, rowStart + first.len, rowStart + first.len);
    }
    slice := TakeWords(g, raw, rowStart, firstToken.end, firstToken.width, sourceEnd, width);
  }

  // ---------------------------------------------------------------- what one slice is

  predicate Gap(raw: string, from: nat, to: nat, words: bool)
    requires to <= |raw|
  {
    from == to || (words && from <= to && forall k :: from <= k < to ==> IsSpace(raw[k]))
  }

  /** A slice keeps grapheme cuts and drops nothing but white space. */
  ghost predicate SliceSound(g: Segmenter, raw: string, next: nat, end: nat, slice: Slice, words: bool)
    requires Segments(g) && end <= |raw|
  {
    && next <= slice.start <= slice.end <= slice.next <= end
    && Cut(g, raw, next, end, slice.start) && Cut(g, raw, slice.start, end, slice.end)
    && Cut(g, raw, slice.end, end, slice.next)
    && Gap(raw, next, slice.start, words) && Gap(raw, slice.end, slice.next, words)
    && (slice.start == slice.end ==> slice.end == end)
  }

  lemma {:induction false} HardCuts(g: Segmenter, raw: string, pos: nat, end: nat, used: nat, width: nat)
    requires Segments(g) && pos <= end <= |raw|
    ensures Cut(g, raw, pos, end, HardEnd(g, raw, pos, end, used, width))
    decreases end - pos
  {
    if pos < end {
      var part := PartAt(g, raw, pos, end);
      if !(used > 0 && used + part.width > width) {
        HardCuts(g, raw, pos + part.len, end, used + part.width, width);
      }
    }
  }

  lemma {:induction false} WordRowSound(g: Segmenter, raw: string, rowStart: nat, position: nat, used: nat, end: nat,
                                        width: nat)
    requires Segments(g) && rowStart < position <= end <= |raw|
    requires Cut(g, raw, rowStart, end, position)
    ensures var slice := WordRow(g, raw, rowStart, position, used, end, width);
            && Cut(g, raw, rowStart, end, slice.end) && Cut(g, raw, slice.end, end, slice.next)
            && SpaceIn(raw, slice.end, slice.next)
    decreases end - position
  {
    hide RunFrom, IsSpace, Cut, PartAt, Segments, WhiteAt, WidthOf;
    CutHere(g, raw, end, position);
    if position < end {
      var gap := RunFrom(g, raw, position, end, true, 0, None);
      RunCuts(g, raw, position, end, true, 0, None);
      RunIsSpace(g, raw, position, end, 0, None);
      CutTransitive(g, raw, rowStart, end, position, gap.end);
      CutHere(g, raw, end, gap.end);
      if position < gap.end < end {
        var left := if width >= used + gap.width then width - used - gap.width else 0;
        var word := RunFrom(g, raw, gap.end, end, false, 0, Some(left));
        RunCuts(g, raw, gap.end, end, false, 0, Some(left));
        CutTransitive(g, raw, rowStart, end, gap.end, word.end);
        if word.complete && word.end > gap.end {
          WordRowSound(g, raw, rowStart, word.end, used + gap.width + word.width, end, width);
        }
      }
    }
  }

  lemma {:induction false} WordSliceSound(g: Segmenter, raw: string, next: nat, end: nat, width: nat)
    requires Segments(g) && next < end <= |raw|
    ensures SliceSound(g, raw, next, end, WordSlice(g, raw, next, end, width), true)
  {
    hide RunFrom, IsSpace, WordRow;
    var rowStart := RunFrom(g, raw, next, end, true, 0, None).end;
    RunCuts(g, raw, next, end, true, 0, None);
    RunIsSpace(g, raw, next, end, 0, None);
    if rowStart < end {
      var first := RunFrom(g, raw, rowStart, end, false, 0, Some(width));
      RunCuts(g, raw, rowStart, end, false, 0, Some(width));
      if first.complete && first.end > rowStart {
        WordRowSound(g, raw, rowStart, first.end, first.width, end, width);
      } else {
        assert Cut(g, raw, rowStart, end, rowStart);
        CutStep(g, raw, rowStart, end, rowStart);
      }
    }
  }

  // ---------------------------------------------------------------- rows fit

  /** Every grapheme from `pos` on takes at least one cell. */
  ghost predicate Positive(g: Segmenter, raw: string, pos: nat, end: nat)
    requires Segments(g) && end <= |raw|
    decreases end - pos
  {
    pos < end ==>
      var part := PartAt(g, raw, pos, end);
      part.width >= 1 && Positive(g, raw, pos + part.len, end)
  }

  lemma {:induction false} PositiveAt(g: Segmenter, raw: string, pos: nat, end: nat, p: nat)
    requires Segments(g) && end <= |raw| && Positive(g, raw, pos, end) && Cut(g, raw, pos, end, p)
    ensures Positive(g, raw, p, end)
    decreases end - pos
  {
    if pos < p {
      PositiveAt(g, raw, pos + PartAt(g, raw, pos, end).len, end, p);
    }
  }

  /** Within the width, or one grapheme that is wider than the whole row. */
  ghost predicate Fits(g: Segmenter, raw: string, start: nat, stop: nat, end: nat, width: nat)
    requires Segments(g) && stop <= end <= |raw|
  {
    WidthOf(g, raw, start, stop, end) <= width
    || (start < end && stop == start + PartAt(g, raw, start, end).len)
  }

  /** Cells of the first grapheme that takes any; 0 if none does. */
  ghost function FirstCells(g: Segmenter, raw: string, pos: nat, end: nat): nat
    requires Segments(g) && pos <= end <= |raw|
    decreases end - pos
  {
    if pos == end then 0
    else
      var part := PartAt(g, raw, pos, end);
      if part.width > 0 then part.width else FirstCells(g, raw, pos + part.len, end)
  }

  /** Once some cells are used, graphemes are taken while they fit, and none if the row is already too wide. */
  lemma {:induction false} HardUses(g: Segmenter, raw: string, pos: nat, end: nat, used: nat, width: nat)
    requires Segments(g) && pos <= end <= |raw| && used > 0
    ensures var stop := HardEnd(g, raw, pos, end, used, width);
            if used <= width then used + WidthOf(g, raw, pos, stop, end) <= width else stop == pos
    decreases end - pos
  {
    if pos < end {
      var part := PartAt(g, raw, pos, end);
      if used + part.width <= width {
        HardUses(g, raw, pos + part.len, end, used + part.width, width);
      }
    }
  }

  /** A hard row is wider than asked exactly when its first grapheme with cells is. */
  lemma {:induction false} HardWidth(g: Segmenter, raw: string, pos: nat, end: nat, width: nat)
    requires Segments(g) && pos <= end <= |raw|
    ensures WidthOf(g, raw, pos, HardEnd(g, raw, pos, end, 0, width), end) > width
            <==> FirstCells(g, raw, pos, end) > width
    decreases end - pos
  {
    if pos < end {
      var part := PartAt(g, raw, pos, end);
      if part.width > 0 {
        HardUses(g, raw, pos + part.len, end, part.width, width);
      } else {
        HardWidth(g, raw, pos + part.len, end, width);
      }
    }
  }

  /** Graphemes without cells, then one wider than the row: a hard row takes them all. */
  ghost predicate HardOverruns(g: Segmenter, raw: string, start: nat, end: nat, width: nat)
    requires Segments(g) && start < end <= |raw|
  {
    var first := PartAt(g, raw, start, end);
    first.width == 0 && FirstCells(g, raw, start + first.len, end) > width
  }

  lemma {:induction false} HardFits(g: Segmenter, raw: string, pos: nat, end: nat, width: nat)
    requires Segments(g) && pos < end <= |raw|
    ensures Fits(g, raw, pos, HardEnd(g, raw, pos, end, 0, width), end, width)
            <==> !HardOverruns(g, raw, pos, end, width)
  {
    var part := PartAt(g, raw, pos, end);
    HardWidth(g, raw, pos, end, width);
    if part.width > width {
      HardUses(g, raw, pos + part.len, end, part.width, width);
    }
  }

  /**
   At some gap that already overruns the row the next word takes no cells; the words before it, and
   the gaps between them, fit. `used` are the cells up to `position`, the end of a word.
   */
  ghost predicate WordsOverrun(g: Segmenter, raw: string, position: nat, used: nat, end: nat, width: nat)
    requires Segments(g) && position <= end <= |raw|
    decreases end - position
  {
    position < end &&
    var gap := RunFrom(g, raw, position, end, true, 0, None);
    position < gap.end < end &&
    var word := RunFrom(g, raw, gap.end, end, false, 0, None);
    if used + gap.width > width then word.width == 0
    else used + gap.width + word.width <= width
         && WordsOverrun(g, raw, word.end, used + gap.width + word.width, end, width)
  }

  /** A word is complete within a limit exactly when all of it fits. */
  lemma {:induction false} WordWithin(g: Segmenter, raw: string, pos: nat, end: nat, used: nat, limit: nat)
    requires Segments(g) && pos <= end <= |raw| && used <= limit
    ensures var whole := RunFrom(g, raw, pos, end, false, used, None);
            var part := RunFrom(g, raw, pos, end, false, used, Some(limit));
            whole.complete && if whole.width <= limit then part == whole else !part.complete
    decreases end - pos
  {
    hide WhiteAt, Cut, WidthOf, PartAt, Segments;
    if pos < end && !WhiteAt(g, raw, pos, end) {
      var part := PartAt(g, raw, pos, end);
      RunCuts(g, raw, pos + part.len, end, false, used + part.width, None);
      RunStops(g, raw, pos + part.len, end, false, used + part.width, None);
      if used + part.width <= limit {
        WordWithin(g, raw, pos + part.len, end, used + part.width, limit);
      }
    }
  }

  lemma {:induction false} CutBetween(g: Segmenter, raw: string, s: nat, end: nat, p: nat, q: nat)
    requires Segments(g) && end <= |raw| && p <= q
    requires Cut(g, raw, s, end, p) && Cut(g, raw, s, end, q)
    ensures Cut(g, raw, p, end, q)
    decreases end - s
  {
    CutOrdered(g, raw, s, end, p);
    if s < p {
      CutBetween(g, raw, s + PartAt(g, raw, s, end).len, end, p, q);
    }
  }

  /** A row only grows wider. */
  lemma {:induction false} WordRowWidens(g: Segmenter, raw: string, rowStart: nat, position: nat, used: nat, end: nat,
                                         width: nat)
    requires Segments(g) && rowStart < position <= end <= |raw| && Cut(g, raw, rowStart, end, position)
    ensures var slice := WordRow(g, raw, rowStart, position, used, end, width);
            WidthOf(g, raw, rowStart, slice.end, end) >= WidthOf(g, raw, rowStart, position, end)
  {
    hide WordRow, WidthOf;
    var slice := WordRow(g, raw, rowStart, position, used, end, width);
    WordRowSound(g, raw, rowStart, position, used, end, width);
    CutBetween(g, raw, rowStart, end, position, slice.end);
    WidthAdds(g, raw, rowStart, position, slice.end, end);
  }

  /** What a gap and the next word add to a row, and where they are cut. */
  lemma {:induction false} NextWord(g: Segmenter, raw: string, rowStart: nat, position: nat, end: nat)
    requires Segments(g) && rowStart < position < end <= |raw| && Cut(g, raw, rowStart, end, position)
    ensures var gap := RunFrom(g, raw, position, end, true, 0, None);
            && Cut(g, raw, rowStart, end, gap.end)
            && WidthOf(g, raw, rowStart, gap.end, end) == WidthOf(g, raw, rowStart, position, end) + gap.width
            && (gap.end < end ==>
                  var word := RunFrom(g, raw, gap.end, end, false, 0, None);
                  && word.complete && gap.end < word.end && Cut(g, raw, rowStart, end, word.end)
                  && WidthOf(g, raw, rowStart, word.end, end) == WidthOf(g, raw, rowStart, gap.end, end) + word.width)
  {
    hide RunFrom, WhiteAt, WidthOf, Cut;
    var gap := RunFrom(g, raw, position, end, true, 0, None);
    RunCuts(g, raw, position, end, true, 0, None);
    RunStops(g, raw, position, end, true, 0, None);
    CutTransitive(g, raw, rowStart, end, position, gap.end);
    WidthAdds(g, raw, rowStart, position, gap.end, end);
    if gap.end < end {
      var word := RunFrom(g, raw, gap.end, end, false, 0, None);
      RunCuts(g, raw, gap.end, end, false, 0, None);
      RunStops(g, raw, gap.end, end, false, 0, None);
      CutTransitive(g, raw, rowStart, end, gap.end, word.end);
      WidthAdds(g, raw, rowStart, gap.end, word.end, end);
    }
  }

  /** A row takes the next word exactly when it fits, or takes no cells where nothing more fits. */
  lemma {:induction false} WordRowStep(g: Segmenter, raw: string, rowStart: nat, position: nat, used: nat, end: nat,
                                       width: nat)
    requires Segments(g) && rowStart < position < end <= |raw| && Cut(g, raw, rowStart, end, position)
    ensures var slice := WordRow(g, raw, rowStart, position, used, end, width);
            var gap := RunFrom(g, raw, position, end, true, 0, None);
            if position < gap.end < end then
              var word := RunFrom(g, raw, gap.end, end, false, 0, None);
              var left := if width >= used + gap.width then width - used - gap.width else 0;
              if word.width <= left then
                word.end > gap.end
                && slice == WordRow(g, raw, rowStart, word.end, used + gap.width + word.width, end, width)
              else slice.end == position
            else slice.end == if position < gap.end && used + gap.width <= width then gap.end else position
  {
    hide WhiteAt, Cut, WidthOf, RunFrom, Segments, WordRow;
    NextWord(g, raw, rowStart, position, end);
    WordRowTurn(g, raw, rowStart, position, used, end, width);
    var gap := RunFrom(g, raw, position, end, true, 0, None);
    if position < gap.end < end {
      WordWithin(g, raw, gap.end, end, 0, if width >= used + gap.width then width - used - gap.width else 0);
    }
  }

  /** Past a gap that overruns the row only a word without cells is taken. */
  lemma {:induction false} GapOverruns(g: Segmenter, raw: string, rowStart: nat, position: nat, used: nat, end: nat,
                                       width: nat)
    requires Segments(g) && rowStart < position < end <= |raw| && Cut(g, raw, rowStart, end, position)
    requires used == WidthOf(g, raw, rowStart, position, end) <= width
    requires var gap := RunFrom(g, raw, position, end, true, 0, None);
             position < gap.end < end && used + gap.width > width
    ensures var slice := WordRow(g, raw, rowStart, position, used, end, width);
            && (WidthOf(g, raw, rowStart, slice.end, end) > width <==> WordsOverrun(g, raw, position, used, end, width))
            && (WordsOverrun(g, raw, position, used, end, width) ==> slice.end > position)
  {
    hide RunFrom, WhiteAt, Cut, PartAt, Segments, WidthOf;
    WordRowStep(g, raw, rowStart, position, used, end, width);
    NextWord(g, raw, rowStart, position, end);
    hide WordRow;
    var gap := RunFrom(g, raw, position, end, true, 0, None);
    var word := RunFrom(g, raw, gap.end, end, false, 0, None);
    if word.width == 0 {
      WordRowWidens(g, raw, rowStart, word.end, used + gap.width + word.width, end, width);
    }
  }

  /** A row of words is wider than asked exactly when its words overrun; it then holds more than its first word. */
  lemma {:induction false} WordRowFits(g: Segmenter, raw: string, rowStart: nat, position: nat, used: nat, end: nat,
                                       width: nat)
    requires Segments(g) && rowStart < position <= end <= |raw| && Cut(g, raw, rowStart, end, position)
    requires used == WidthOf(g, raw, rowStart, position, end) <= width
    ensures var slice := WordRow(g, raw, rowStart, position, used, end, width);
            && (WidthOf(g, raw, rowStart, slice.end, end) > width <==> WordsOverrun(g, raw, position, used, end, width))
            && (WordsOverrun(g, raw, position, used, end, width) ==> slice.end > position)
    decreases end - position
  {
    hide RunFrom, WhiteAt, Cut, PartAt, Segments, WidthOf, WordRow;
    if position == end {
      NoWordsLeft(g, raw, rowStart, used, end, width);
    } else {
      WordRowStep(g, raw, rowStart, position, used, end, width);
      NextWord(g, raw, rowStart, position, end);
      var gap := RunFrom(g, raw, position, end, true, 0, None);
      if position < gap.end < end {
        var word := RunFrom(g, raw, gap.end, end, false, 0, None);
        var after := used + gap.width + word.width;
        if used + gap.width > width {
          GapOverruns(g, raw, rowStart, position, used, end, width);
        } else if after <= width {
          WordRowFits(g, raw, rowStart, word.end, after, end, width);
        }
      }
    }
  }

  lemma {:induction false} NoWordsLeft(g: Segmenter, raw: string, rowStart: nat, used: nat, end: nat, width: nat)
    requires Segments(g) && rowStart < end <= |raw|
    ensures WordRow(g, raw, rowStart, end, used, end, width).end == end
    ensures !WordsOverrun(g, raw, end, used, end, width)
  {
  }

  /** When a row that starts here does not fit: graphemes without cells, in one of two ways. */
  ghost predicate RowOverruns(g: Segmenter, raw: string, start: nat, end: nat, width: nat, words: bool)
    requires Segments(g) && start <= end <= |raw|
  {
    start < end &&
    if words then
      var first := RunFrom(g, raw, start, end, false, 0, None);
      start < first.end && first.width <= width && WordsOverrun(g, raw, first.end, first.width, end, width)
    else HardOverruns(g, raw, start, end, width)
  }

  lemma {:induction false} FirstWordHolds(g: Segmenter, raw: string, start: nat, end: nat)
    requires Segments(g) && start < end <= |raw|
    ensures var first := RunFrom(g, raw, start, end, false, 0, None);
            start < first.end ==> first.end >= start + PartAt(g, raw, start, end).len
  {
    hide WhiteAt;
  }

  /** A slice of words fits, or is one grapheme wider than the row, exactly when its words do not overrun. */
  lemma {:induction false} WordSliceFits(g: Segmenter, raw: string, next: nat, end: nat, width: nat)
    requires Segments(g) && next < end <= |raw|
    ensures var slice := WordSlice(g, raw, next, end, width);
            Fits(g, raw, slice.start, slice.end, end, width) <==> !RowOverruns(g, raw, slice.start, end, width, true)
  {
    hide RunFrom, WordRow, WhiteAt, WordsOverrun, Cut;
    var rowStart := RunFrom(g, raw, next, end, true, 0, None).end;
    if rowStart < end {
      var first := RunFrom(g, raw, rowStart, end, false, 0, Some(width));
      RunCuts(g, raw, rowStart, end, false, 0, Some(width));
      WordWithin(g, raw, rowStart, end, 0, width);
      if first.complete && first.end > rowStart {
        FirstWordHolds(g, raw, rowStart, end);
        WordRowFits(g, raw, rowStart, first.end, first.width, end, width);
      }
    }
  }

  lemma {:induction false} WordTakesCells(g: Segmenter, raw: string, pos: nat, end: nat, stop: nat)
    requires Segments(g) && pos < stop <= end <= |raw| && Positive(g, raw, pos, end)
    ensures WidthOf(g, raw, pos, stop, end) >= 1
  {
  }

  lemma {:induction false} PositiveWords(g: Segmenter, raw: string, position: nat, used: nat, end: nat, width: nat)
    requires Segments(g) && position <= end <= |raw| && Positive(g, raw, position, end)
    ensures !WordsOverrun(g, raw, position, used, end, width)
    decreases end - position
  {
    hide RunFrom, Positive, Cut, PartAt, Segments, WhiteAt, WidthOf;
    if position < end {
      var gap := RunFrom(g, raw, position, end, true, 0, None);
      RunCuts(g, raw, position, end, true, 0, None);
      RunStops(g, raw, position, end, true, 0, None);
      if position < gap.end < end {
        var word := RunFrom(g, raw, gap.end, end, false, 0, None);
        RunCuts(g, raw, gap.end, end, false, 0, None);
        RunStops(g, raw, gap.end, end, false, 0, None);
        PositiveAt(g, raw, position, end, gap.end);
        WordTakesCells(g, raw, gap.end, end, word.end);
        PositiveAt(g, raw, gap.end, end, word.end);
        PositiveWords(g, raw, word.end, used + gap.width + word.width, end, width);
      }
    }
  }

  /** Where every grapheme takes cells no row overruns. */
  lemma {:induction false} PositiveFits(g: Segmenter, raw: string, start: nat, end: nat, width: nat, words: bool)
    requires Segments(g) && start <= end <= |raw| && Positive(g, raw, start, end)
    ensures !RowOverruns(g, raw, start, end, width, words)
  {
    hide RunFrom, WordsOverrun, Cut;
    if start < end && words {
      var first := RunFrom(g, raw, start, end, false, 0, None);
      RunCuts(g, raw, start, end, false, 0, None);
      PositiveAt(g, raw, start, end, first.end);
      PositiveWords(g, raw, first.end, first.width, end, width);
    }
  }
}
