/**
 A document with the wrap layouts its lines have cached. Queries measure rows, updates replace or grow
 lines; every cached layout of every stored line stays a prefix of wrapping that line afresh. Over any
 sequence of updates equal row keys mean equal rows.

 `WrapLayouts` has the layouts of one line as objects; here they are values, under the line's identity.
 */
module DocumentLayouts {
  import opened Basics
  import opened SourceText
  import opened Markdown
  import opened Restart
  import opened LineHistory
  import opened BodyDocuments
  import opened Wrapping
  import opened WrapRows
  import opened WrapLayouts
  import opened Navigation

  datatype Layout = Layout(rows: seq<Row>, nextSource: nat, complete: bool)

  type Caches = map<nat, map<WrapKey, Layout>>

  datatype Cached = Cached(view: seq<Line>, lastId: nat, caches: Caches)

  /** What a cached layout says about its range of a line's text. */
  ghost predicate LayoutCoherent(g: Segmenter, raw: string, key: WrapKey, layout: Layout) {
    && key.start <= key.end <= |raw|
    && Measured(g, raw[..key.end], key.start, key.width, key.words, layout.rows,
                if layout.complete then 0 else layout.nextSource, layout.complete)
  }

  ghost predicate AllCoherent(g: Segmenter, raw: string, layouts: map<WrapKey, Layout>) {
    forall key :: key in layouts ==> LayoutCoherent(g, raw, key, layouts[key])
  }

  ghost predicate LineCoherent(g: Segmenter, s: Cached, i: nat)
    requires i < |s.view|
  {
    s.view[i].id in s.caches ==> AllCoherent(g, s.view[i].raw, s.caches[s.view[i].id])
  }

  ghost predicate Coherent(g: Segmenter, s: Cached) {
    && Segments(g) && DistinctIds(s.view)
    && (forall i :: 0 <= i < |s.view| ==> s.view[i].id <= s.lastId)
    && (forall id :: id in s.caches ==> id <= s.lastId)
    && (forall i :: 0 <= i < |s.view| ==> LineCoherent(g, s, i))
  }

  // ---------------------------------------------------------------- steps

  /** A query opens a layout and measures rows; an update replaces the lines. */
  datatype Op =
    | Open(i: nat, key: WrapKey)
    | Measure(i: nat, key: WrapKey)
    | Update(next: seq<Line>, lastId: nat, appended: bool)

  /** One more row, by the slice that begins where the measured rows end. */
  function MeasuredOnce(g: Segmenter, raw: string, key: WrapKey, layout: Layout): Layout
    requires Segments(g) && key.start <= key.end <= |raw|
  {
    var source := raw[..key.end];
    if layout.complete then layout
    else if key.start == key.end then Layout(layout.rows + [Row(key.start, key.end)], layout.nextSource, true)
    else if layout.nextSource >= key.end then layout
    else
      var slice := SliceOf(g, source, layout.nextSource, key.end, key.width, key.words);
      Layout(layout.rows + [Row(slice.start, slice.end)], slice.next, slice.next >= key.end)
  }

  /** A finished layout forgets its last row and goes on from there. */
  function Reopened(layout: Layout): Layout {
    if layout.complete && |layout.rows| > 0 then
      Layout(layout.rows[..|layout.rows| - 1], layout.rows[|layout.rows| - 1].start, false)
    else layout.(complete := false)
  }

  function ReopenedAt(layouts: map<WrapKey, Layout>, end: nat): (reopened: map<WrapKey, Layout>)
    ensures reopened.Keys == layouts.Keys
  {
    map key | key in layouts :: if key.end == end then Reopened(layouts[key]) else layouts[key]
  }

  /** `retargetAppendedLine`: layouts of ranges that reached the old end are reopened under new keys. */
  function Retargeted(layouts: map<WrapKey, Layout>, oldEnd: nat, newEnd: nat): map<WrapKey, Layout>
    requires oldEnd < newEnd && forall key :: key in layouts ==> key.end <= oldEnd
  {
    Rekeyed(ReopenedAt(layouts, oldEnd), oldEnd, newEnd)
  }

  /** The last line grew in place and has layouts. */
  ghost predicate Grows(s: Cached, op: Op) {
    && op.Update? && op.appended && s.view != [] && |s.view| <= |op.next|
    && var p := |s.view| - 1;
       && GrewInPlace(s.view, op.next, p) && |s.view[p].raw| < |op.next[p].raw| && s.view[p].id in s.caches
  }

  /** Appends happen at a grapheme boundary: the cuts of a cached range that reached the end stay. */
  ghost predicate AtBoundary(g: Segmenter, s: Cached, op: Op)
    requires Segments(g) && Grows(s, op)
  {
    var prior, grown := s.view[|s.view| - 1], op.next[|s.view| - 1];
    forall key :: key in s.caches[prior.id] && key.end == |prior.raw| ==> Stable(g, prior.raw, grown.raw, key.start)
  }

  ghost predicate Follows(s: Cached, op: Op)
    requires op.Update?
  {
    && DistinctIds(op.next) && s.lastId <= op.lastId && LinesFollow(s.view, s.lastId, op.next, op.appended)
    && forall i :: 0 <= i < |op.next| ==> op.next[i].id <= op.lastId
  }

  ghost predicate Allowed(g: Segmenter, s: Cached, op: Op)
    requires Segments(g)
  {
    match op
    case Open(i, key) => i < |s.view| && key.start <= key.end <= |s.view[i].raw|
    case Measure(i, key) => i < |s.view| && s.view[i].id in s.caches && key in s.caches[s.view[i].id]
    case Update(_, _, _) => Follows(s, op) && (Grows(s, op) ==> AtBoundary(g, s, op))
  }

  ghost function After(g: Segmenter, s: Cached, op: Op): Cached
    requires Coherent(g, s) && Allowed(g, s, op)
  {
    match op
    case Open(i, key) =>
      var id := s.view[i].id;
      var layouts := if id in s.caches then s.caches[id] else map[];
      if key in layouts then s else s.(caches := s.caches[id := layouts[key := Layout([], key.start, false)]])
    case Measure(i, key) =>
      var id := s.view[i].id;
      assert LineCoherent(g, s, i);
      assert LayoutCoherent(g, s.view[i].raw, key, s.caches[id][key]);
      s.(caches := s.caches[id := s.caches[id][key := MeasuredOnce(g, s.view[i].raw, key, s.caches[id][key])]])
    case Update(next, lastId, _) =>
      if !Grows(s, op) then Cached(next, lastId, s.caches)
      else
        var p := |s.view| - 1;
        assert LineCoherent(g, s, p);
        var layouts := s.caches[s.view[p].id];
        assert forall key :: key in layouts ==> LayoutCoherent(g, s.view[p].raw, key, layouts[key]);
        Cached(next, lastId, s.caches[s.view[p].id := Retargeted(s.caches[s.view[p].id], |s.view[p].raw|,
                                                                 |next[p].raw|)])
  }

  // ---------------------------------------------------------------- each step keeps coherence

  lemma {:induction false} MeasureCoherent(g: Segmenter, raw: string, key: WrapKey, layout: Layout)
    requires Segments(g) && LayoutCoherent(g, raw, key, layout)
    ensures LayoutCoherent(g, raw, key, MeasuredOnce(g, raw, key, layout))
    ensures layout.rows <= MeasuredOnce(g, raw, key, layout).rows
  {
    hide SliceOf, RowsFrom, Cut;
    var source := raw[..key.end];
    if !layout.complete && key.start < key.end {
      MeasureKeeps(g, source, key.start, key.width, key.words, layout.rows, layout.nextSource);
      var slice := SliceOf(g, source, layout.nextSource, key.end, key.width, key.words);
      if slice.next >= key.end {
        FinishedAnywhere(g, source, key.start, key.width, key.words, layout.rows + [Row(slice.start, slice.end)],
                         slice.next);
      }
    }
  }

  lemma {:induction false} OpenCoherent(g: Segmenter, raw: string, key: WrapKey)
    requires Segments(g) && key.start <= key.end <= |raw|
    ensures LayoutCoherent(g, raw, key, Layout([], key.start, false))
  {
    StartsUnmeasured(g, raw[..key.end], key.start, key.width, key.words);
  }

  /** A layout of a range that reached the end, reopened, is one of the grown range. */
  lemma {:induction false} ReopenCoherent(g: Segmenter, raw: string, raw': string, key: WrapKey, layout: Layout)
    requires Segments(g) && raw < raw' && key.end == |raw| && LayoutCoherent(g, raw, key, layout)
    requires Stable(g, raw, raw', key.start)
    ensures LayoutCoherent(g, raw', key.(end := |raw'|), Reopened(layout))
  {
    assert raw[..|raw|] == raw && raw'[..|raw'|] == raw';
    hide Stable;
    if layout.complete {
      GrowFinished(g, raw, key.start, key.width, key.words, layout.rows, raw');
    } else {
      GrowUnfinished(g, raw, key.start, key.width, key.words, layout.rows, layout.nextSource, raw');
    }
  }

  /** A layout of a range that did not reach the end is one of the same range of the grown line. */
  lemma {:induction false} InnerCoherent(g: Segmenter, raw: string, raw': string, key: WrapKey, layout: Layout)
    requires raw <= raw' && LayoutCoherent(g, raw, key, layout)
    ensures LayoutCoherent(g, raw', key, layout)
  {
    assert raw'[..key.end] == raw[..key.end];
  }

  lemma {:induction false} RetargetCoherent(g: Segmenter, raw: string, raw': string, layouts: map<WrapKey, Layout>)
    requires Segments(g) && raw < raw' && AllCoherent(g, raw, layouts)
    requires forall key :: key in layouts && key.end == |raw| ==> Stable(g, raw, raw', key.start)
    ensures forall key :: key in layouts ==> key.end <= |raw|
    ensures AllCoherent(g, raw', Retargeted(layouts, |raw|, |raw'|))
  {
    hide Measured, Stable;
    assert forall key :: key in layouts ==> LayoutCoherent(g, raw, key, layouts[key]);
    var all := Retargeted(layouts, |raw|, |raw'|);
    forall key | key in all ensures LayoutCoherent(g, raw', key, all[key]) {
      var source := OldKey(key, |raw|, |raw'|);
      assert source in layouts && NewKey(source, |raw|, |raw'|) == key;
      if source.end == |raw| {
        ReopenCoherent(g, raw, raw', source, layouts[source]);
      } else {
        InnerCoherent(g, raw, raw', source, layouts[source]);
      }
    }
  }

  lemma {:induction false} QueryCoherent(g: Segmenter, s: Cached, op: Op)
    requires Coherent(g, s) && Allowed(g, s, op) && !op.Update?
    ensures Coherent(g, After(g, s, op))
  {
    hide Measured, MeasuredOnce;
    var line := s.view[op.i];
    assert LineCoherent(g, s, op.i);
    if op.Open? {
      OpenCoherent(g, line.raw, op.key);
    } else {
      assert LayoutCoherent(g, line.raw, op.key, s.caches[line.id][op.key]);
      MeasureCoherent(g, line.raw, op.key, s.caches[line.id][op.key]);
    }
    var next := After(g, s, op);
    forall i | 0 <= i < |next.view| ensures LineCoherent(g, next, i) {
      assert LineCoherent(g, s, i);
    }
  }

  lemma {:induction false} UpdateCoherent(g: Segmenter, s: Cached, op: Op)
    requires Coherent(g, s) && Allowed(g, s, op) && op.Update?
    ensures Coherent(g, After(g, s, op))
  {
    hide Measured, Stable, AllCoherent, Retargeted;
    var next := After(g, s, op);
    var p: int := |s.view| - 1;
    if Grows(s, op) {
      assert LineCoherent(g, s, p);
      hide Segments;
      RetargetCoherent(g, s.view[p].raw, op.next[p].raw, s.caches[s.view[p].id]);
    }
    forall i | 0 <= i < |op.next| ensures LineCoherent(g, next, i) {
      var line := op.next[i];
      if line.id in s.caches && !(Grows(s, op) && i == p) {
        if KeptLine(s.view, line) {
          var j :| 0 <= j < |s.view| && s.view[j] == line;
          assert LineCoherent(g, s, j);
          assert Grows(s, op) ==> op.next[p].id != line.id;
        } else {
          assert GrewInPlace(s.view, op.next, i) && s.view[i].raw == line.raw;
          assert LineCoherent(g, s, i);
        }
      }
    }
  }

  // ---------------------------------------------------------------- every run

  ghost predicate AllAllowed(g: Segmenter, s: Cached, ops: seq<Op>)
    decreases |ops|
  {
    ops != [] ==>
      Coherent(g, s) && Allowed(g, s, ops[0]) && AllAllowed(g, After(g, s, ops[0]), ops[1..])
  }

  ghost function Run(g: Segmenter, s: Cached, ops: seq<Op>): Cached
    requires AllAllowed(g, s, ops)
    decreases |ops|
  {
    if ops == [] then s else Run(g, After(g, s, ops[0]), ops[1..])
  }

  /** Operations that a coherent document can take one after the other. */
  ghost predicate Possible(g: Segmenter, s: Cached, ops: seq<Op>)
    decreases |ops|
  {
    ops == [] || (Segments(g) && Allowed(g, s,
                                         ops[0]) && (Coherent(g, s) ==> Possible(g, After(g, s, ops[0]), ops[1..])))
  }

  /**
   After any run of queries and updates, appends being at grapheme boundaries, every cached layout of
   every stored line is a prefix of wrapping its range of the line afresh.
   */
  lemma {:induction false} RunCoherent(g: Segmenter, s: Cached, ops: seq<Op>)
    requires Coherent(g, s) && Possible(g, s, ops)
    ensures AllAllowed(g, s, ops) && Coherent(g, Run(g, s, ops))
    decreases |ops|
  {
    hide Coherent, Allowed, After;
    if ops != [] {
      StepCoherent(g, s, ops[0]);
      RunCoherent(g, After(g, s, ops[0]), ops[1..]);
    }
  }

  lemma {:induction false} StepCoherent(g: Segmenter, s: Cached, op: Op)
    requires Coherent(g, s) && Allowed(g, s, op)
    ensures Coherent(g, After(g, s, op))
  {
    hide Coherent, Allowed, After;
    if op.Update? {
      UpdateCoherent(g, s, op);
    } else {
      QueryCoherent(g, s, op);
    }
  }

  lemma {:induction false} CachedRowsArePrefix(g: Segmenter, s: Cached, i: nat, key: WrapKey)
    requires Coherent(g, s) && i < |s.view| && s.view[i].id in s.caches && key in s.caches[s.view[i].id]
    ensures key.start <= key.end <= |s.view[i].raw|
    ensures var rows := s.caches[s.view[i].id][key].rows;
            rows <= WrapAll(g, s.view[i].raw[..key.end], key.start, key.end, key.width, key.words)
  {
    hide Measured;
    assert LineCoherent(g, s, i);
    var layout := s.caches[s.view[i].id][key];
    assert LayoutCoherent(g, s.view[i].raw, key, layout);
    MeasuredPrefix(g, s.view[i].raw[..key.end], key.start, key.width, key.words, layout.rows,
                   if layout.complete then 0 else layout.nextSource, layout.complete);
  }

  // ---------------------------------------------------------------- over a document's updates

  /** An update of a document is one of the updates above. */
  method UpdateFollows(document: BodyDocument, newText: string, ghost s: Cached) returns (ghost op: Op)
    requires document.Valid() && CloseHasNoPipe(document.g)
    requires s.view == document.Lines() && s.lastId == document.lastId
    modifies document
    ensures document.Valid() && document.text == newText
    ensures op == Update(document.Lines(), document.lastId, old(document.text) <= newText) && Follows(s, op)
  {
    ghost var appended := document.text <= newText;
    document.Update(newText);
    op := Update(document.Lines(), document.lastId, appended);
  }

  predicate RowWithin(lines: seq<SourceLine>, i: nat, row: Row) {
    i < |lines| && lines[i].start <= lines[i].end && row.start <= row.end <= lines[i].end - lines[i].start
  }

  /** Equal keys of plain rows of the two texts mean equal rendered rows. */
  ghost predicate KeysAgree(text: string, lines: seq<SourceLine>, text': string, lines': seq<SourceLine>)
    requires Placed(text, lines) && Placed(text', lines')
  {
    forall i: nat, row: Row, j: nat, row': Row, width: nat ::
      RowWithin(lines, i, row) && RowWithin(lines', j, row')
      && KeyOfRow(lines, i, row, width) == KeyOfRow(lines', j, row', width) ==>
        RenderPlain(text, lines, i, row) == RenderPlain(text', lines', j, row')
  }

  lemma {:induction false} KeysStayTrue(text: string, lines: seq<SourceLine>, latest: map<nat, string>,
                                        text': string, lines': seq<SourceLine>, latest': map<nat, string>)
    requires Placed(text, lines) && LatestKnown(View(text, lines), latest)
    requires Placed(text', lines') && LatestKnown(View(text', lines'), latest')
    requires LatestExtends(latest, latest')
    ensures KeysAgree(text, lines, text', lines')
  {
    hide LatestKnown, LatestExtends, View, RenderPlain;
    forall i: nat, row: Row, j: nat, row': Row, width: nat
      | RowWithin(lines, i, row) && RowWithin(lines', j, row')
        && KeyOfRow(lines, i, row, width) == KeyOfRow(lines', j, row', width)
      ensures RenderPlain(text, lines, i, row) == RenderPlain(text', lines', j, row')
    {
      RowKeySound(text, lines, latest, i, row, text', lines', latest', j, row', width);
    }
  }

  /** Over any sequence of updates, two equal keys of plain rows, then and now, mean equal rows. */
  method UpdateAll(document: BodyDocument, texts: seq<string>)
    requires document.Valid() && CloseHasNoPipe(document.g)
    modifies document
    ensures document.Valid() && (texts != [] ==> document.text == texts[|texts| - 1])
    ensures KeysAgree(old(document.text), old(document.lines), document.text, document.lines)
  {
    hide KeysAgree;
    ghost var text, lines, first := document.text, document.lines, document.latest;
    assert LatestKnown(View(text, lines), first);
    for i := 0 to |texts|
      invariant document.Valid() && LatestExtends(first, document.latest)
      invariant i > 0 ==> document.text == texts[i - 1]
    {
      ghost var before := document.latest;
      document.Update(texts[i]);
      LatestExtendsTransitive(first, before, document.latest);
    }
    KeysStayTrue(text, lines, first, document.text, document.lines, document.latest);
  }
}
