/**
 The lazily measured layout of one source range, and the layouts kept for a line while its text grows.

 `Coherent` is the invariant: what has been measured, followed by measuring the rest, is the
 from-scratch wrapping. Every method keeps it, so any run of row queries and appends does.
 */
module WrapLayouts {
  import opened Basics
  import opened Wrapping
  import opened WrapRows

  /** First row an offset falls in or before; the last known row otherwise. */
  function FindRow(rows: seq<Row>, start: nat, offset: nat): (row: nat)
    ensures rows != [] ==> row < |rows|
  {
    if offset <= start then 0 else FindRowFrom(rows, offset, 0)
  }

  function FindRowFrom(rows: seq<Row>, offset: nat, row: nat): (r: nat)
    requires row <= |rows|
    ensures rows != [] ==> r < |rows|
    decreases |rows| - row
  {
    if row == |rows| then (if |rows| == 0 then 0 else |rows| - 1)
    else if offset < rows[row].end then row
    else if row + 1 < |rows| && offset < rows[row + 1].start then row + 1
    else FindRowFrom(rows, offset, row + 1)
  }

  /** Measured rows and what is still to be measured make up the from-scratch wrapping. */
  ghost predicate Measured(g: Segmenter, raw: string, start: nat, width: nat, words: bool,
                           rows: seq<Row>, nextSource: nat, complete: bool) {
    && Segments(g) && start <= |raw|
    && (if complete then rows == WrapAll(g, raw, start, |raw|, width, words)
        else if start == |raw| then rows == [] && nextSource == start
        else && start <= nextSource < |raw|
             && Cut(g, raw, start, |raw|, nextSource)
             && rows + RowsFrom(g, raw, nextSource, |raw|, width, words)
                == RowsFrom(g, raw, start, |raw|, width, words))
  }

  lemma {:induction false} MeasuredPrefix(g: Segmenter, raw: string, start: nat, width: nat, words: bool,
                                          rows: seq<Row>, nextSource: nat, complete: bool)
    requires Measured(g, raw, start, width, words, rows, nextSource, complete)
    ensures rows <= WrapAll(g, raw, start, |raw|, width, words)
    ensures complete ==> rows == WrapAll(g, raw, start, |raw|, width, words)
    ensures !complete ==> |rows| < |WrapAll(g, raw, start, |raw|, width, words)|
  {
  }

  lemma {:induction false} StartsUnmeasured(g: Segmenter, raw: string, start: nat, width: nat, words: bool)
    requires Segments(g) && start <= |raw|
    ensures Measured(g, raw, start, width, words, [], start, false)
  {
    if start < |raw| {
      assert [] + RowsFrom(g, raw, start, |raw|, width, words) == RowsFrom(g, raw, start, |raw|, width, words);
    }
  }

  lemma {:induction false} MeasureKeeps(g: Segmenter, raw: string, start: nat, width: nat, words: bool,
                                        rows: seq<Row>, nextSource: nat)
    requires start < |raw| && Measured(g, raw, start, width, words, rows, nextSource, false)
    ensures nextSource < |raw|
    ensures var slice := SliceOf(g, raw, nextSource, |raw|, width, words);
            Measured(g, raw, start, width, words, rows + [Row(slice.start, slice.end)], slice.next, slice.next >= |raw|)
  {
    hide SliceOf, RowsFrom, Cut;
    var slice := SliceOf(g, raw, nextSource, |raw|, width, words);
    RowsStep(g, raw, nextSource, |raw|, width, words);
    SliceReaches(g, raw, nextSource, |raw|, width, words);
    NoRowsLeft(g, raw, width, words);
    CutTransitive(g, raw, start, |raw|, nextSource, slice.next);
    var rest := RowsFrom(g, raw, slice.next, |raw|, width, words);
    assert rows + ([Row(slice.start, slice.end)] + rest) == rows + [Row(slice.start, slice.end)] + rest;
  }

  lemma {:induction false} SpliceLast(before: seq<Row>, rest: seq<Row>, again: seq<Row>)
    requires rest != []
    ensures var all := before + rest;
            && all[|all| - 1] == rest[|rest| - 1]
            && all[..|all| - 1] + again == before + (rest[..|rest| - 1] + again)
  {
  }

  /** An unfinished layout is unaffected by an append. */
  lemma {:induction false} GrowUnfinished(g: Segmenter, raw: string, start: nat, width: nat, words: bool,
                                          rows: seq<Row>, nextSource: nat, raw': string)
    requires Measured(g, raw, start, width, words, rows, nextSource, false)
    requires raw < raw' && Stable(g, raw, raw', start)
    ensures Measured(g, raw', start, width, words, rows, nextSource, false)
  {
    hide SliceOf, RowsFrom, Cut, Stable;
    if start == |raw| {
      StartsUnmeasured(g, raw', start, width, words);
      CutHere(g, raw', start);
    } else {
      StableAt(g, raw, raw', start, nextSource);
      AppendRows(g, raw, raw', start, width, words);
      AppendRows(g, raw, raw', nextSource, width, words);
      var rest := RowsFrom(g, raw, nextSource, |raw|, width, words);
      SpliceLast(rows, rest, RowsFrom(g, raw', rest[|rest| - 1].start, |raw'|, width, words));
    }
  }

  /** A finished layout without its last row is an unfinished layout of the longer text. */
  lemma {:induction false} GrowFinished(g: Segmenter, raw: string, start: nat, width: nat, words: bool,
                                        rows: seq<Row>, raw': string)
    requires Measured(g, raw, start, width, words, rows, 0, true)
    requires raw < raw' && Stable(g, raw, raw', start)
    ensures rows != []
    ensures Measured(g, raw', start, width, words, rows[..|rows| - 1], rows[|rows| - 1].start, false)
  {
    hide SliceOf, RowsFrom, Cut, Stable;
    if start == |raw| {
      StartsUnmeasured(g, raw', start, width, words);
      CutHere(g, raw', start);
      assert rows[..0] == [];
    } else {
      AppendRows(g, raw, raw', start, width, words);
      StableAt(g, raw, raw', start, rows[|rows| - 1].start);
    }
  }

  lemma {:induction false} CutHere(g: Segmenter, raw: string, at: nat)
    requires Segments(g)
    ensures Cut(g, raw, at, |raw|, at)
  {
  }

  method NextSlice(g: Segmenter, raw: string, next: nat, width: nat, words: bool) returns (slice: Slice)
    requires Segments(g) && next < |raw|
    ensures slice == SliceOf(g, raw, next, |raw|, width, words)
  {
    if words {
      slice := NextWordSlice(g, raw, next, |raw|, width);
    } else {
      var stop := NextHardBoundary(g, raw, next, |raw|, width);
      slice := Slice(next, stop, stop);
    }
  }

  class WrapLayout {
    /** Starts and ends of the measured rows. */
    var boundaries: seq<nat>
    var ends: seq<nat>
    var nextSource: nat
    var complete: bool

    ghost function Rows(): (rows: seq<Row>)
      reads this
      requires |boundaries| == |ends|
      ensures |rows| == |ends|
      ensures forall i :: 0 <= i < |rows| ==> rows[i] == Row(boundaries[i], ends[i])
    {
      seq(|ends|, i requires 0 <= i < |ends| && |boundaries| == |ends| reads this => Row(boundaries[i], ends[i]))
    }

    /** `raw` ends where the range does. */
    ghost predicate Coherent(g: Segmenter, raw: string, start: nat, width: nat, words: bool)
      reads this
    {
      |boundaries| == |ends| && Measured(g, raw, start, width, words, Rows(), if complete then 0 else nextSource,
                                         complete)
    }

    constructor (g: Segmenter, raw: string, start: nat, width: nat, words: bool)
      requires Segments(g) && start <= |raw|
      ensures Coherent(g, raw, start, width, words)
      ensures ends == [] && !complete
    {
      boundaries, ends, nextSource, complete := [], [], start, false;
      new;
      assert Rows() == [];
      StartsUnmeasured(g, raw, start, width, words);
    }

    /** One more row of an unfinished layout. */
    method MeasureRow(g: Segmenter, raw: string, start: nat, width: nat, words: bool)
      requires Coherent(g, raw, start, width, words) && !complete
      modifies this
      ensures Coherent(g, raw, start, width, words)
      ensures |ends| == old(|ends|) + 1 && old(Rows()) <= Rows()
    {
      hide RowsFrom, Cut, SliceOf, Segments;
      ghost var before := Rows();
      if start == |raw| {
        boundaries, ends, complete := boundaries + [start], ends + [|raw|], true;
        assert Rows() == [Row(start, |raw|)];
        return;
      }
      hide Measured;
      MeasureKeeps(g, raw, start, width, words, before, nextSource);
      var slice := NextSlice(g, raw, nextSource, width, words);
      if slice.next <= nextSource {
        // The source has a fallback for a slice that does not advance. There is none.
        assert false;
      }
      boundaries, ends, nextSource := boundaries + [slice.start], ends + [slice.end], slice.next;
      assert Rows() == before + [Row(slice.start, slice.end)];
      if slice.next >= |raw| {
        FinishedAnywhere(g, raw, start, width, words, Rows(), slice.next);
        complete := true;
        assert Rows() == before + [Row(slice.start, slice.end)];
      }
    }

    /** Whether the range has a row of this index. */
    method EnsureRow(g: Segmenter, raw: string, start: nat, width: nat, words: bool, row: nat) returns (has: bool)
      requires Coherent(g, raw, start, width, words)
      modifies this
      ensures Coherent(g, raw, start, width, words)
      ensures has <==> row < |WrapAll(g, raw, start, |raw|, width, words)|
      ensures has ==> row < |ends| == |boundaries| && Rows()[row] == WrapAll(g, raw, start, |raw|, width, words)[row]
      ensures old(Rows()) <= Rows()
      ensures old(!complete && |ends| <= row) ==> |ends| > old(|ends|)
    {
      ghost var all := WrapAll(g, raw, start, |raw|, width, words);
      MeasuredPrefix(g, raw, start, width, words, Rows(), if complete then 0 else nextSource, complete);
      hide Measured, WrapAll;
      while !complete && |ends| <= row
        invariant Coherent(g, raw, start, width, words)
        invariant old(Rows()) <= Rows() <= all
        invariant complete ==> Rows() == all
        invariant old(!complete && |ends| <= row) ==> |ends| > old(|ends|) || (!complete && |ends| == old(|ends|))
        decreases |all| - |ends|
      {
        MeasureRow(g, raw, start, width, words);
        MeasuredPrefix(g, raw, start, width, words, Rows(), if complete then 0 else nextSource, complete);
      }
      has := row < |ends|;
    }

    /** All rows; at least one. */
    method EnsureAll(g: Segmenter, raw: string, start: nat, width: nat, words: bool) returns (count: nat)
      requires Coherent(g, raw, start, width, words)
      modifies this
      ensures Coherent(g, raw, start, width, words) && complete
      ensures count == |WrapAll(g, raw, start, |raw|, width, words)|
    {
      ghost var all := WrapAll(g, raw, start, |raw|, width, words);
      MeasuredPrefix(g, raw, start, width, words, Rows(), if complete then 0 else nextSource, complete);
      hide Measured;
      while !complete
        invariant Coherent(g, raw, start, width, words)
        invariant Rows() <= all
        invariant complete ==> Rows() == all
        decreases |all| - |ends|
      {
        var has := EnsureRow(g, raw, start, width, words, |ends|);
        MeasuredPrefix(g, raw, start, width, words, Rows(), if complete then 0 else nextSource, complete);
      }
      count := if |ends| > 1 then |ends| else 1;
    }

    /** The row of an offset, measuring no further than it must. */
    method RowForOffset(g: Segmenter, raw: string, start: nat, width: nat, words: bool, offset: nat) returns (row: nat)
      requires Coherent(g, raw, start, width, words) && start <= offset <= |raw|
      modifies this
      ensures Coherent(g, raw, start, width, words)
      ensures old(Rows()) <= Rows()
      ensures row == FindRow(Rows(), start, offset)
      ensures complete || nextSource > offset
      ensures forall r | 0 <= r < |WrapAll(g, raw, start, |raw|, width, words)| ::
                InRow(WrapAll(g, raw, start, |raw|, width, words)[r], offset) ==> row == r
    {
      ghost var all := WrapAll(g, raw, start, |raw|, width, words);
      MeasuredPrefix(g, raw, start, width, words, Rows(), if complete then 0 else nextSource, complete);
      hide Measured;
      while !complete && nextSource <= offset
        invariant Coherent(g, raw, start, width, words)
        invariant old(Rows()) <= Rows() <= all
        decreases |all| - |ends|
      {
        MeasureRow(g, raw, start, width, words);
        MeasuredPrefix(g, raw, start, width, words, Rows(), if complete then 0 else nextSource, complete);
      }
      RowsOrdered(g, raw, start, width, words);
      MeasuredNext(g, raw, start, width, words, Rows(), if complete then 0 else nextSource, complete);
      forall r | 0 <= r < |all| && InRow(all[r], offset) ensures FindRow(Rows(), start, offset) == r {
        SeekFindsRow(all, Rows(), start, |raw|, nextSource, complete, offset, r);
      }
      row := FindSourceRow(start, offset);
    }

    method FindSourceRow(start: nat, offset: nat) returns (row: nat)
      requires |boundaries| == |ends|
      ensures row == FindRow(Rows(), start, offset)
    {
      if offset <= start {
        return 0;
      }
      row := 0;
      while row < |ends|
        invariant row <= |ends|
        invariant FindRowFrom(Rows(), offset, row) == FindRowFrom(Rows(), offset, 0)
      {
        if offset < ends[row] {
          return;
        }
        if row + 1 < |boundaries| && offset < boundaries[row + 1] {
          return row + 1;
        }
        row := row + 1;
      }
      row := if |ends| == 0 then 0 else |ends| - 1;
    }

    /**
     The range has grown by an append at a grapheme boundary: a finished layout forgets its last row
     and goes on from where that row began; an unfinished one simply goes on.
     */
    method Reopen(g: Segmenter, raw: string, start: nat, width: nat, words: bool, ghost raw': string)
      requires Coherent(g, raw, start, width, words)
      requires raw < raw' && Stable(g, raw, raw', start)
      modifies this
      ensures Coherent(g, raw', start, width, words)
      ensures !complete && Rows() == (if old(complete) then old(Rows())[..old(|ends|) - 1] else old(Rows()))
    {
      hide Stable, Segments, Measured;
      ghost var before := Rows();
      if complete {
        GrowFinished(g, raw, start, width, words, before, raw');
      } else {
        GrowUnfinished(g, raw, start, width, words, before, nextSource, raw');
      }
      if complete && |ends| > 0 {
        nextSource := boundaries[|boundaries| - 1];
        boundaries, ends := boundaries[..|boundaries| - 1], ends[..|ends| - 1];
        assert Rows() == before[..|before| - 1];
      }
      complete := false;
      assert Rows() == if old(complete) then before[..|before| - 1] else before;
    }
  }

  lemma {:induction false} FinishedAnywhere(g: Segmenter, raw: string, start: nat, width: nat, words: bool,
                                            rows: seq<Row>, nextSource: nat)
    requires Measured(g, raw, start, width, words, rows, nextSource, true)
    ensures Measured(g, raw, start, width, words, rows, 0, true)
  {
  }

  // ---------------------------------------------------------------- finding rows again

  /** An offset belongs to the row that holds it, the end of the range to an empty last row. */
  predicate InRow(row: Row, offset: nat) {
    row.start <= offset && (offset < row.end || row.start == row.end == offset)
  }

  lemma {:induction false} MeasuredNext(g: Segmenter, raw: string, start: nat, width: nat, words: bool,
                                        rows: seq<Row>, nextSource: nat, complete: bool)
    requires Measured(g, raw, start, width, words, rows, nextSource, complete)
    ensures !complete ==>
              var all := WrapAll(g, raw, start, |raw|, width, words);
              |rows| < |all| && nextSource <= all[|rows|].start
  {
    hide RowsFrom, Cut;
    if !complete && start < |raw| {
      var rest := RowsFrom(g, raw, nextSource, |raw|, width, words);
      RowsNonEmpty(g, raw, nextSource, |raw|, width, words, 0);
      assert (rows + rest)[|rows|] == rest[0];
    }
  }

  /** The rows of a wrapping, as far as navigation relies on them. */
  ghost predicate Ordered(rows: seq<Row>, start: nat, end: nat) {
    && rows != []
    && (forall i :: 0 <= i < |rows| ==> start <= rows[i].start <= rows[i].end <= end)
    && (forall i, j :: 0 <= i < j < |rows| ==> rows[i].end <= rows[j].start)
    && (forall i :: 0 <= i < |rows| && rows[i].start == rows[i].end ==> i + 1 == |rows| && rows[i].end == end)
  }

  lemma {:induction false} RowsOrdered(g: Segmenter, raw: string, start: nat, width: nat, words: bool)
    requires Segments(g) && start <= |raw|
    ensures Ordered(WrapAll(g, raw, start, |raw|, width, words), start, |raw|)
  {
    hide RowsFrom, Cut;
    var rows := WrapAll(g, raw, start, |raw|, width, words);
    if start < |raw| {
      forall i | 0 <= i < |rows|
        ensures start <= rows[i].start <= rows[i].end <= |raw|
        ensures i > 0 ==> rows[i - 1].end <= rows[i].start
        ensures rows[i].start == rows[i].end ==> i + 1 == |rows| && rows[i].end == |raw|
      {
        RowsNonEmpty(g, raw, start, |raw|, width, words, i);
      }
      forall i, j | 0 <= i < j < |rows| ensures rows[i].end <= rows[j].start {
        RowsFollow(g, raw, start, width, words, i, j);
      }
    }
  }

  lemma {:induction false} RowsFollow(g: Segmenter, raw: string, start: nat, width: nat, words: bool, i: nat, j: nat)
    requires Segments(g) && start <= |raw|
    requires i < j < |RowsFrom(g, raw, start, |raw|, width, words)|
    ensures var rows := RowsFrom(g, raw, start, |raw|, width, words); rows[i].end <= rows[j].start
    decreases j
  {
    hide RowsFrom, Cut;
    RowsNonEmpty(g, raw, start, |raw|, width, words, j);
    RowsNonEmpty(g, raw, start, |raw|, width, words, j - 1);
    if i < j - 1 {
      RowsFollow(g, raw, start, width, words, i, j - 1);
    }
  }

  lemma {:induction false} FindsRow(rows: seq<Row>, offset: nat, row: nat, r: nat)
    requires row <= r < |rows|
    requires forall i, j :: 0 <= i < j < |rows| ==> rows[i].end <= rows[j].start
    requires forall i :: 0 <= i < |rows| ==> rows[i].start <= rows[i].end
    requires rows[r].start <= offset
    requires offset < rows[r].end || (r + 1 == |rows| && offset == rows[r].end)
    ensures FindRowFrom(rows, offset, row) == r
    decreases r - row
  {
    if row < r {
      assert rows[row].end <= rows[r].start;
      if row + 1 < r {
        assert rows[row + 1].end <= rows[r].start;
      }
      FindsRow(rows, offset, row + 1, r);
    }
  }

  /**
   An offset inside row `r`, or the start of an empty last row, is found in row `r` however much of
   the layout had been measured before.
   */
  lemma {:induction false} SeekFindsRow(all: seq<Row>, measured: seq<Row>, start: nat, end: nat, nextSource: nat,
                                        complete: bool, offset: nat, r: nat)
    requires Ordered(all, start, end) && measured <= all && r < |all|
    requires if complete then measured == all else |measured| < |all| && offset < nextSource <= all[|measured|].start
    requires InRow(all[r], offset)
    ensures FindRow(measured, start, offset) == r
  {
    assert r < |measured|;
    assert r > 0 ==> all[0].end <= all[r].start;
    if offset > start {
      assert forall i :: 0 <= i < |measured| ==> measured[i] == all[i];
      FindsRow(measured, offset, 0, r);
    }
  }

  /** In white space between two rows the answer depends on whether the later row had been measured. */
  lemma {:induction false} SeekInGap(all: seq<Row>, measured: seq<Row>, start: nat, end: nat, offset: nat, r: nat)
    requires Ordered(all, start, end) && measured <= all
    requires r + 1 < |all| && r < |measured|
    requires start < offset && all[r].end <= offset < all[r + 1].start
    ensures FindRow(measured, start, offset) == if r + 1 < |measured| then r + 1 else r
  {
    assert forall i :: 0 <= i < |measured| ==> measured[i] == all[i];
    GapFrom(measured, offset, 0, r);
  }

  lemma {:induction false} GapFrom(rows: seq<Row>, offset: nat, row: nat, r: nat)
    requires row <= r < |rows|
    requires forall i, j :: 0 <= i < j < |rows| ==> rows[i].end <= rows[j].start
    requires forall i :: 0 <= i < |rows| ==> rows[i].start <= rows[i].end
    requires rows[r].end <= offset && (r + 1 < |rows| ==> offset < rows[r + 1].start)
    ensures FindRowFrom(rows, offset, row) == if r + 1 < |rows| then r + 1 else r
    decreases r - row
  {
    if row < r {
      assert rows[row].end <= rows[r].start;
      assert rows[row + 1].start <= rows[r].end by {
        if row + 1 < r {
          assert rows[row + 1].end <= rows[r].start;
        }
      }
      GapFrom(rows, offset, row + 1, r);
    }
  }

  // ---------------------------------------------------------------- a zero-width grapheme

  /**
   A vowel sign that is a grapheme of its own and takes no cells (U+102B, a mark that extends nothing
   in section 3 of UAX #29), an ideograph of two cells, and one cell for anything else.
   */
  function CellsByScalar(): Segmenter {
    (s: string) => Part(1, if |s| == 0 || s[0] == '\U{102B}' then 0 else if s[0] == '\U{4E00}' then 2 else 1)
  }

  /** After a full row of words, white space and a word without cells are still taken. */
  lemma {:induction false} WordRowOverruns()
    ensures var g, raw := CellsByScalar(), "a \U{102B}";
            && Segments(g)
            && WordSlice(g, raw, 0, 3, 1) == Slice(0, 3, 3)
            && WidthOf(g, raw, 0, 3, 3) == 2
            && !Fits(g, raw, 0, 3, 3, 1)
  {
    var g := CellsByScalar();
    var raw := "a \U{102B}";
    assert raw[0..3][0] == 'a' && raw[1..3][0] == ' ' && raw[2..3][0] == '\U{102B}';
    assert PartAt(g, raw, 0, 3) == Part(1, 1) && PartAt(g, raw, 1, 3) == Part(1, 1);
    assert PartAt(g, raw, 2, 3) == Part(1, 0);
    assert raw[0..1] == "a" && raw[1..2] == " " && raw[2..3] == "\U{102B}";
    assert !WhiteAt(g, raw, 0, 3) && WhiteAt(g, raw, 1, 3) && !WhiteAt(g, raw, 2, 3);
    assert RunFrom(g, raw, 0, 3, true, 0, None) == Run(0, 0, true);
    assert RunFrom(g, raw, 0, 3, false, 0, Some(1)) == Run(1, 1, true);
    assert RunFrom(g, raw, 1, 3, true, 0, None) == Run(2, 1, true) by {
      assert RunFrom(g, raw, 2, 3, true, 1, None) == Run(2, 1, true);
    }
    assert RunFrom(g, raw, 2, 3, false, 0, Some(0)) == Run(3, 0, true) by {
      assert RunFrom(g, raw, 3, 3, false, 0, Some(0)) == Run(3, 0, true);
    }
    assert WordRow(g, raw, 0, 3, 2, 3, 1) == Slice(0, 3, 3);
    assert WordRow(g, raw, 0, 1, 1, 3, 1) == Slice(0, 3, 3);
    assert WidthOf(g, raw, 3, 3, 3) == 0 && WidthOf(g, raw, 2, 3, 3) == 0 && WidthOf(g, raw, 1, 3, 3) == 1;
  }

  /** A row that opens with a grapheme without cells takes the next one, however wide. */
  lemma {:induction false} HardRowOverruns()
    ensures var g, raw := CellsByScalar(), "\U{102B}\U{4E00}";
            && Segments(g)
            && HardEnd(g, raw, 0, 2, 0, 1) == 2
            && WidthOf(g, raw, 0, 2, 2) == 2
            && !Fits(g, raw, 0, 2, 2, 1)
  {
    var g := CellsByScalar();
    var raw := "\U{102B}\U{4E00}";
    assert raw[0..2][0] == '\U{102B}' && raw[1..2][0] == '\U{4E00}';
    assert PartAt(g, raw, 0, 2) == Part(1, 0) && PartAt(g, raw, 1, 2) == Part(1, 2);
    assert HardEnd(g, raw, 2, 2, 2, 1) == 2;
    assert HardEnd(g, raw, 1, 2, 0, 1) == 2;
    assert WidthOf(g, raw, 2, 2, 2) == 0;
    assert WidthOf(g, raw, 1, 2, 2) == 2;
  }

  // ---------------------------------------------------------------- the layouts of one line

  datatype WrapKey = WrapKey(start: nat, end: nat, width: nat, words: bool)

  function NewKey(key: WrapKey, oldEnd: nat, newEnd: nat): WrapKey {
    if key.end == oldEnd then key.(end := newEnd) else key
  }

  function OldKey(key: WrapKey, oldEnd: nat, newEnd: nat): WrapKey {
    if key.end == newEnd then key.(end := oldEnd) else key
  }

  /** Ranges that reached the old end now reach the new one; no two keys meet. */
  function Rekeyed<V>(wraps: map<WrapKey, V>, oldEnd: nat, newEnd: nat): (rekeyed: map<WrapKey, V>)
    requires oldEnd < newEnd && forall key :: key in wraps ==> key.end <= oldEnd
    ensures forall key :: key in wraps ==>
              NewKey(key, oldEnd, newEnd) in rekeyed && rekeyed[NewKey(key, oldEnd, newEnd)] == wraps[key]
    ensures forall key :: key in rekeyed ==>
              var source := OldKey(key, oldEnd, newEnd);
              source in wraps && NewKey(source, oldEnd, newEnd) == key && rekeyed[key] == wraps[source]
  {
    map key | key in wraps :: NewKey(key, oldEnd, newEnd) := wraps[key]
  }

  class LineWraps {
    const g: Segmenter
    var raw: string
    var wraps: map<WrapKey, WrapLayout>

    ghost predicate Valid()
      reads this, set key | key in wraps :: wraps[key]
    {
      && Segments(g)
      && (forall key :: key in wraps ==> key.start <= key.end <= |raw|
                                         && wraps[key].Coherent(g, raw[..key.end], key.start, key.width, key.words))
      && (forall key, key' :: key in wraps && key' in wraps && key != key' ==> wraps[key] != wraps[key'])
    }

    ghost function Layouts(): set<object>
      reads this
    {
      set key | key in wraps :: wraps[key]
    }

    constructor (g: Segmenter, raw: string)
      requires Segments(g)
      ensures Valid() && this.g == g && this.raw == raw && wraps == map[]
    {
      this.g, this.raw, wraps := g, raw, map[];
    }

    /** The layout of a range: the cached one, or a new one without rows. */
    method LayoutOf(key: WrapKey) returns (layout: WrapLayout)
      requires Valid() && key.start <= key.end <= |raw|
      modifies this
      ensures Valid() && raw == old(raw) && key in wraps && layout == wraps[key]
      ensures if key in old(wraps) then wraps == old(wraps) else wraps == old(wraps)[key := layout] && fresh(layout)
    {
      hide Measured, WrapLayout.Coherent;
      if key !in wraps {
        layout := new WrapLayout(g, raw[..key.end], key.start, key.width, key.words);
        wraps := wraps[key := layout];
      } else {
        layout := wraps[key];
      }
    }

    /** A row query: the cached layout answers as the from-scratch wrapping does. */
    method RowAt(key: WrapKey, row: nat) returns (found: Option<Row>)
      requires Valid() && key.start <= key.end <= |raw|
      modifies this, Layouts()
      ensures Valid() && raw == old(raw) && fresh(Layouts() - old(Layouts()))
      ensures var all := WrapAll(g, raw[..key.end], key.start, key.end, key.width, key.words);
              found == if row < |all| then Some(all[row]) else None
    {
      hide Measured, RowsFrom, WrapAll, Segments, WrapLayout.Coherent, WrapLayout.Rows;
      var source := raw[..key.end];
      var layout := LayoutOf(key);
      var has := layout.EnsureRow(g, source, key.start, key.width, key.words, row);
      found := if has then Some(Row(layout.boundaries[row], layout.ends[row])) else None;
    }

    /**
     The line grew in place; an empty line never does, it is replaced. Layouts of ranges that reached
     its end are re-keyed and reopened; all
     others are kept, since their ranges have not changed.
     */
    method Retarget(newRaw: string)
      requires Valid() && raw <= newRaw && |raw| > 0
      requires forall key :: key in wraps && key.end == |raw| && raw < newRaw ==> Stable(g, raw, newRaw, key.start)
      modifies this, Layouts()
      ensures Valid() && raw == newRaw && Layouts() <= old(Layouts())
      ensures old(raw) < newRaw ==>
                forall key :: key in old(wraps) ==> NewKey(key, |old(raw)|, |newRaw|) in wraps
    {
      if |newRaw| <= |raw| {
        assert newRaw == raw;
        return;
      }
      hide Measured, Stable, WrapLayout.Coherent;
      var grown := set key | key in wraps && key.end == |raw|;
      ReopenAll(grown, newRaw);
      Rekey(newRaw);
    }

    /** Moves the reopened layouts to the keys of the longer range. */
    method Rekey(newRaw: string)
      requires Segments(g) && raw < newRaw
      requires forall key, key' :: key in wraps && key' in wraps && key != key' ==> wraps[key] != wraps[key']
      requires forall key :: key in wraps ==>
                 key.start <= key.end <= |raw|
                 && wraps[key].Coherent(g, Present(key, key.end == |raw|, raw, newRaw), key.start, key.width, key.words)
      modifies this
      ensures Valid() && raw == newRaw && Layouts() <= old(Layouts())
      ensures forall key :: key in old(wraps) ==> NewKey(key, |old(raw)|, |newRaw|) in wraps
    {
      hide Measured, WrapLayout.Coherent, NewKey, OldKey;
      ghost var before, oldRaw := wraps, raw;
      wraps := Rekeyed(wraps, |raw|, |newRaw|);
      raw := newRaw;
      forall key | key in wraps
        ensures key.start <= key.end <= |raw|
        ensures wraps[key].Coherent(g, raw[..key.end], key.start, key.width, key.words)
      {
        KeyTexts(key, oldRaw, newRaw);
        assert OldKey(key, |oldRaw|, |newRaw|) in before;
      }
    }

    method ReopenAll(grown: set<WrapKey>, ghost newRaw: string)
      requires Valid() && raw < newRaw
      requires forall key :: key in grown ==> key in wraps && key.end == |raw| && Stable(g, raw, newRaw, key.start)
      modifies Layouts()
      ensures raw == old(raw) && wraps == old(wraps)
      ensures forall key :: key in wraps ==>
                key.start <= key.end <= |raw|
                && wraps[key].Coherent(g, Present(key, key in grown, raw, newRaw), key.start, key.width, key.words)
    {
      hide Measured, Stable, WrapLayout.Coherent;
      var pending := grown;
      assert raw[..|raw|] == raw;
      while pending != {}
        invariant pending <= grown
        invariant forall key :: key in wraps ==>
                    wraps[key].Coherent(g, Present(key, key in grown && key !in pending, raw, newRaw),
                                        key.start, key.width, key.words)
        decreases pending
      {
        var key :| key in pending;
        var layout := wraps[key];
        layout.Reopen(g, raw, key.start, key.width, key.words, newRaw);
        pending := pending - {key};
      }
    }

    /** The text a layout is coherent with while its line is being retargeted. */
    static function Present(key: WrapKey, reopened: bool, oldRaw: string, newRaw: string): string
      requires key.end <= |oldRaw|
    {
      if reopened then newRaw else oldRaw[..key.end]
    }

    static lemma {:induction false} KeyTexts(key: WrapKey, oldRaw: string, newRaw: string)
      requires oldRaw < newRaw
      ensures var source := OldKey(key, |oldRaw|, |newRaw|);
              && source.start == key.start && source.width == key.width && source.words == key.words
              && (source.end <= |oldRaw| && NewKey(source, |oldRaw|, |newRaw|) == key ==>
                    && key.end <= |newRaw| && source.end <= key.end
                    && Present(source, source.end == |oldRaw|, oldRaw, newRaw) == newRaw[..key.end])
    {
      assert newRaw[..|newRaw|] == newRaw;
    }
  }
}
