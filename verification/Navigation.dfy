/** Moving through the display rows of a body, and finding a row again by source offset or by key. */
module Navigation {
  import opened Basics
  import opened SourceText
  import opened Markdown
  import opened LineHistory
  import opened Wrapping
  import opened WrapRows
  import opened WrapLayouts

  /** How a line is shown: as one fixed row, or as the wrapping of part of it. */
  datatype Shown = FixedRow | WrappedRange(start: nat, end: nat, width: nat, words: bool)

  /** A body whose line `i` is shown as `shown[i]`. Tables are not covered. */
  datatype Body = Body(g: Segmenter, text: string, spans: seq<Span>, shown: seq<Shown>) {
    ghost predicate Valid() {
      && Segments(g)
      && spans == Spans(text, 0)
      && |shown| == |spans|
      && forall i :: 0 <= i < |spans| ==> LineShown(i)
    }

    ghost predicate LineShown(i: nat)
      requires i < |spans| && |shown| == |spans|
    {
      && spans[i].start <= spans[i].end <= |text|
      && (shown[i].WrappedRange? ==> shown[i].start <= shown[i].end <= spans[i].end - spans[i].start)
    }

    function Raw(i: nat): string
      requires i < |spans| && spans[i].start <= spans[i].end <= |text|
    {
      text[spans[i].start..spans[i].end]
    }

    ghost function Rows(i: nat): (rows: seq<Row>)
      requires Valid() && i < |spans|
      ensures rows != []
    {
      assert LineShown(i);
      match shown[i]
      case FixedRow => [Row(0, 0)]
      case WrappedRange(start, end, width, words) => WrapAll(g, Raw(i)[..end], start, end, width, words)
    }
  }

  datatype Cursor = Cursor(block: nat, row: nat)

  ghost predicate At(body: Body, c: Cursor)
    requires body.Valid()
  {
    c.block < |body.spans| && c.row < |body.Rows(c.block)|
  }

  function First(): Cursor { Cursor(0, 0) }

  ghost function Last(body: Body): Cursor
    requires body.Valid()
  {
    var block := |body.spans| - 1;
    Cursor(block, |body.Rows(block)| - 1)
  }

  ghost function Next(body: Body, c: Cursor): (n: Option<Cursor>)
    requires body.Valid() && At(body, c)
    ensures n.Some? ==> At(body, n.value)
  {
    if c.row + 1 < |body.Rows(c.block)| then Some(Cursor(c.block, c.row + 1))
    else if c.block + 1 < |body.spans| then Some(Cursor(c.block + 1, 0))
    else None
  }

  ghost function Previous(body: Body, c: Cursor): (p: Option<Cursor>)
    requires body.Valid() && At(body, c)
    ensures p.Some? ==> At(body, p.value)
  {
    if c.row > 0 then Some(Cursor(c.block, c.row - 1))
    else if c.block == 0 then None
    else Some(Cursor(c.block - 1, |body.Rows(c.block - 1)| - 1))
  }

  /** Rows shown above a block. */
  ghost function Above(body: Body, block: nat): nat
    requires body.Valid() && block <= |body.spans|
  {
    if block == 0 then 0 else Above(body, block - 1) + |body.Rows(block - 1)|
  }

  ghost function Rank(body: Body, c: Cursor): nat
    requires body.Valid() && At(body, c)
  {
    Above(body, c.block) + c.row
  }

  lemma {:induction false} AboveGrows(body: Body, block: nat, block': nat)
    requires body.Valid() && block < block' <= |body.spans|
    ensures Above(body, block) + |body.Rows(block)| <= Above(body, block')
    decreases block'
  {
    hide Body.Rows, Body.Valid;
    if block + 1 < block' {
      AboveGrows(body, block, block' - 1);
    }
  }

  lemma {:induction false} RankInjective(body: Body, c: Cursor, d: Cursor)
    requires body.Valid() && At(body, c) && At(body, d) && Rank(body, c) == Rank(body, d)
    ensures c == d
  {
    hide Body.Rows, Body.Valid;
    if c.block < d.block {
      AboveGrows(body, c.block, d.block);
    } else if d.block < c.block {
      AboveGrows(body, d.block, c.block);
    }
  }

  /** `count` steps of `next` from a cursor. */
  ghost function Steps(body: Body, c: Cursor, count: nat): (r: Option<Cursor>)
    requires body.Valid() && At(body, c)
    ensures r.Some? ==> At(body, r.value)
    decreases count
  {
    if count == 0 then Some(c)
    else match Next(body, c)
      case None => None
      case Some(n) => Steps(body, n, count - 1)
  }

  /** `previous` undoes `next` and `next` undoes `previous`; only the ends have no neighbour. */
  lemma {:induction false} NextPrevious(body: Body, c: Cursor)
    requires body.Valid() && At(body, c)
    ensures Next(body, c).Some? ==> Previous(body, Next(body, c).value) == Some(c)
    ensures Previous(body, c).Some? ==> Next(body, Previous(body, c).value) == Some(c)
    ensures Next(body, c).None? <==> c == Last(body)
    ensures Previous(body, c).None? <==> c == First()
    ensures Next(body, c).Some? ==> Rank(body, Next(body, c).value) == Rank(body, c) + 1
  {
    hide Body.Rows, Body.Valid;
  }

  lemma {:induction false} StepsRank(body: Body, c: Cursor, count: nat)
    requires body.Valid() && At(body, c)
    ensures Steps(body, c, count).Some? <==> Rank(body, c) + count < Above(body, |body.spans|)
    ensures Steps(body, c, count).Some? ==> Rank(body, Steps(body, c, count).value) == Rank(body, c) + count
    decreases count
  {
    hide Body.Rows, Body.Valid;
    NextPrevious(body, c);
    AboveGrows(body, c.block, |body.spans|);
    if count > 0 && Next(body, c).Some? {
      StepsRank(body, Next(body, c).value, count - 1);
    }
  }

  /** Walking down from the first row meets every row of every block exactly once. */
  lemma {:induction false} WalkVisitsOnce(body: Body, c: Cursor)
    requires body.Valid() && At(body, c)
    ensures At(body, First())
    ensures Steps(body, First(), Rank(body, c)) == Some(c)
    ensures forall count: nat :: Steps(body, First(), count) == Some(c) ==> count == Rank(body, c)
  {
    hide Body.Rows, Body.Valid;
    assert Rank(body, First()) == 0;
    AboveGrows(body, c.block, |body.spans|);
    StepsRank(body, First(), Rank(body, c));
    RankInjective(body, c, Steps(body, First(), Rank(body, c)).value);
    forall count: nat | Steps(body, First(), count) == Some(c) ensures count == Rank(body, c) {
      StepsRank(body, First(), count);
    }
  }

  // ---------------------------------------------------------------- source offsets

  ghost function SourceOffset(body: Body, c: Cursor): nat
    requires body.Valid() && At(body, c)
  {
    body.spans[c.block].start + if body.shown[c.block].FixedRow? then 0 else body.Rows(c.block)[c.row].start
  }

  /** Binary search for the line an offset lies on; a line's own end still belongs to it. */
  method LineIndexAt(text: string, spans: seq<Span>, offset: nat) returns (index: nat)
    requires spans == Spans(text, 0) && offset <= |text|
    ensures index < |spans| && spans[index].start <= offset <= spans[index].end
  {
    SpansChained(text, 0);
    index := 0;
    var low, high := 0, |spans| - 1;
    while low <= high
      invariant 0 <= low <= high + 1 <= |spans|
      invariant low < |spans| && spans[low].start <= offset
      invariant high + 1 < |spans| ==> offset < spans[high + 1].start
      decreases high - low
    {
      var middle := (low + high) / 2;
      assert LineAt(text, spans, middle);
      if offset < spans[middle].start {
        high := middle - 1;
      } else if offset > spans[middle].end && middle < |spans| - 1 {
        low := middle + 1;
      } else {
        return middle;
      }
    }
    assert false;
  }

  lemma {:induction false} OwnLine(text: string, spans: seq<Span>, i: nat, j: nat, offset: nat)
    requires spans == Spans(text, 0) && i < |spans| && j < |spans|
    requires spans[i].start <= offset <= spans[i].end && spans[j].start <= offset <= spans[j].end
    ensures i == j
  {
    SpansChained(text, 0);
    if i < j {
      ChainedAscending(text, spans, 0, i, j);
    } else if j < i {
      ChainedAscending(text, spans, 0, j, i);
    }
  }

  /** The cursor a source offset leads to. */
  method Seek(body: Body, sourceOffset: nat, layout: WrapLayout, ghost line: nat) returns (c: Cursor)
    requires body.Valid() && line < |body.spans|
    requires body.spans[line].start <= sourceOffset <= body.spans[line].end
    requires var shown := body.shown[line];
             shown.WrappedRange? ==>
               body.LineShown(line)
               && layout.Coherent(body.g, body.Raw(line)[..shown.end], shown.start, shown.width, shown.words)
    modifies layout
    ensures c.block == line
    ensures forall at | At(body, at) && SourceOffset(body, at) == sourceOffset && at.block == line :: c == at
  {
    assert body.LineShown(line);
    var lineIndex := LineIndexAt(body.text, body.spans, sourceOffset);
    OwnLine(body.text, body.spans, line, lineIndex, sourceOffset);
    assert body.LineShown(lineIndex);
    match body.shown[lineIndex]
    case FixedRow =>
      c := Cursor(lineIndex, 0);
    case WrappedRange(start, end, width, words) =>
      var raw := body.Raw(lineIndex)[..end];
      var distance := sourceOffset - body.spans[lineIndex].start;
      var relative := if distance > end then end else if distance < start then start else distance;
      var row := layout.RowForOffset(body.g, raw, start, width, words, relative);
      c := Cursor(lineIndex, row);
      RowsOrdered(body.g, raw, start, width, words);
      ghost var all := body.Rows(lineIndex);
      forall at | At(body, at) && SourceOffset(body, at) == sourceOffset && at.block == line ensures c == at {
        assert InRow(all[at.row], relative);
      }
  }

  // ---------------------------------------------------------------- row keys of plain bodies

  /** The key under which a rendered plain row may be cached. */
  datatype RowKey = RowKey(width: nat, lineId: nat, lineStart: nat, start: nat, end: nat)

  /** The rendered row before escaping: its source text and where it begins. */
  datatype Rendered = Rendered(source: string, sourceOffset: nat)

  function KeyOfRow(lines: seq<SourceLine>, i: nat, row: Row, width: nat): RowKey
    requires i < |lines|
  {
    RowKey(width, lines[i].id, lines[i].start, row.start, row.end)
  }

  function RenderPlain(text: string, lines: seq<SourceLine>, i: nat, row: Row): Rendered
    requires Placed(text, lines) && i < |lines|
    requires row.start <= row.end <= lines[i].end - lines[i].start
  {
    Rendered(text[lines[i].start + row.start..lines[i].start + row.end], lines[i].start + row.start)
  }

  /**
   Equal keys, also at different times, mean equal rows: `latest` and `latest'` are the texts known
   then and now, and in between identities only grew.
   */
  lemma {:induction false} RowKeySound(text: string, lines: seq<SourceLine>, latest: map<nat, string>, i: nat, row: Row,
                                       text': string, lines': seq<SourceLine>, latest': map<nat, string>, j: nat,
                                       row': Row, width: nat)
    requires Placed(text, lines) && i < |lines| && LatestKnown(View(text, lines), latest)
    requires Placed(text', lines') && j < |lines'| && LatestKnown(View(text', lines'), latest')
    requires LatestExtends(latest, latest')
    requires row.start <= row.end <= lines[i].end - lines[i].start
    requires row'.start <= row'.end <= lines'[j].end - lines'[j].start
    requires KeyOfRow(lines, i, row, width) == KeyOfRow(lines', j, row', width)
    ensures RenderPlain(text, lines, i, row) == RenderPlain(text', lines', j, row')
  {
    var raw, raw' := LineOf(text, lines[i]).raw, LineOf(text', lines'[j]).raw;
    assert View(text, lines)[i].raw == raw && View(text', lines')[j].raw == raw';
    assert raw <= raw';
    assert raw[row.start..row.end] == raw'[row.start..row.end];
    SubSlice(text, lines[i].start, lines[i].end, row.start, row.end);
    SubSlice(text', lines'[j].start, lines'[j].end, row.start, row.end);
  }

  lemma {:induction false} SubSlice(text: string, from: nat, to: nat, start: nat, end: nat)
    requires from <= to <= |text| && start <= end <= to - from
    ensures text[from..to][start..end] == text[from + start..from + end]
  {
    var inner, outer := text[from..to][start..end], text[from + start..from + end];
    assert |inner| == |outer|;
    assert forall k :: 0 <= k < |inner| ==> inner[k] == outer[k];
  }

  lemma {:induction false} LatestExtendsTransitive(first: map<nat, string>, second: map<nat, string>,
                                                   third: map<nat, string>)
    requires LatestExtends(first, second) && LatestExtends(second, third)
    ensures LatestExtends(first, third)
  {
    forall id: nat | id in first ensures id in third && first[id] <= third[id] {
      assert first[id] <= second[id] <= third[id];
    }
  }
}
