/**
 Stored lines and what their identities mean over time: the facts that make caches keyed by
 identity, or by identity and version, safe to reuse.
 */
module LineHistory {
  import opened Basics
  import opened SourceText
  import opened Markdown
  import opened Restart

  /** A line as the document stores it: a source range and the identity of its caches. */
  datatype SourceLine = SourceLine(start: nat, end: nat, id: nat, version: nat)

  function SpansOf(lines: seq<SourceLine>): (spans: seq<Span>)
    ensures |spans| == |lines|
    ensures forall i :: 0 <= i < |lines| ==> spans[i] == Span(lines[i].start, lines[i].end)
  {
    seq(|lines|, i requires 0 <= i < |lines| => Span(lines[i].start, lines[i].end))
  }

  ghost predicate Placed(text: string, lines: seq<SourceLine>) {
    forall i :: 0 <= i < |lines| ==> lines[i].start <= lines[i].end <= |text|
  }

  function LineOf(text: string, line: SourceLine): Line
    requires line.start <= line.end <= |text|
  {
    Line(line.id, line.version, text[line.start..line.end])
  }

  /** The lines with their raw text, as the parser reads them. */
  function View(text: string, lines: seq<SourceLine>): (view: seq<Line>)
    requires Placed(text, lines)
    ensures |view| == |lines|
    ensures forall i :: 0 <= i < |lines| ==> view[i] == LineOf(text, lines[i])
  {
    seq(|lines|, i requires 0 <= i < |lines| => LineOf(text, lines[i]))
  }

  lemma {:induction false} LinesPlaced(text: string, lines: seq<SourceLine>)
    requires SpansOf(lines) == Spans(text, 0)
    ensures Placed(text, lines)
  {
    SpansChained(text, 0);
    forall i | 0 <= i < |lines| ensures lines[i].start <= lines[i].end <= |text| {
      assert LineAt(text, SpansOf(lines), i);
      assert SpansOf(lines)[i] == Span(lines[i].start, lines[i].end);
    }
  }

  ghost predicate LinesKnown(view: seq<Line>, known: map<(nat, nat), string>) {
    forall i :: 0 <= i < |view| ==>
      (view[i].id, view[i].version) in known && known[(view[i].id, view[i].version)] == view[i].raw
  }

  ghost predicate ContextKnown(context: TableContext, known: map<(nat, nat), string>) {
    && |context.key| == |context.texts|
    && forall k :: 0 <= k < |context.key| ==> context.key[k] in known && known[context.key[k]] == context.texts[k]
  }

  ghost predicate LatestKnown(view: seq<Line>, latest: map<nat, string>) {
    forall i :: 0 <= i < |view| ==> view[i].id in latest && latest[view[i].id] == view[i].raw
  }

  ghost predicate VersionsLead(view: seq<Line>, known: map<(nat, nat), string>) {
    forall i, v: nat :: 0 <= i < |view| && (view[i].id, v) in known ==> v <= view[i].version
  }

  ghost predicate IdsIssued(view: seq<Line>, lastId: nat, known: map<(nat, nat), string>, latest: map<nat, string>) {
    && (forall i :: 0 <= i < |view| ==> view[i].id <= lastId)
    && (forall k: (nat, nat) :: k in known ==> k.0 <= lastId)
    && (forall id: nat :: id in latest ==> id <= lastId)
  }

  /** An identity with its version stands for one text for ever; an identity's text only grows. */
  ghost predicate History(view: seq<Line>, lastId: nat, known: map<(nat, nat), string>, latest: map<nat, string>) {
    && DistinctIds(view)
    && LinesKnown(view, known)
    && LatestKnown(view, latest)
    && VersionsLead(view, known)
    && IdsIssued(view, lastId, known, latest)
  }

  ghost predicate KnownExtends(known: map<(nat, nat), string>, known': map<(nat, nat), string>) {
    forall k: (nat, nat) :: k in known ==> k in known' && known'[k] == known[k]
  }

  ghost predicate LatestExtends(latest: map<nat, string>, latest': map<nat, string>) {
    forall id: nat :: id in latest ==> id in latest' && latest[id] <= latest'[id]
  }

  /** A line of the new text: new, kept as it was, or grown in place. */
  ghost predicate Succeeds(view: seq<Line>, lastId: nat, lastId': nat, line: Line) {
    || (lastId < line.id <= lastId')
    || (exists j :: 0 <= j < |view| && Continues(view[j], line))
  }

  ghost predicate Continues(line: Line, line': Line) {
    && line.id == line'.id
    && (line == line' || (line'.version == line.version + 1 && line.raw <= line'.raw))
  }

  ghost function Learned(view: seq<Line>): (known: map<(nat, nat), string>)
    requires DistinctIds(view)
  {
    map line: Line | line in view :: (line.id, line.version) := line.raw
  }

  ghost function Newest(view: seq<Line>): (latest: map<nat, string>)
    requires DistinctIds(view)
  {
    map line: Line | line in view :: line.id := line.raw
  }

  lemma {:induction false} LearnedFrom(view: seq<Line>, k: (nat, nat)) returns (i: nat)
    requires DistinctIds(view) && k in Learned(view)
    ensures i < |view| && k == (view[i].id, view[i].version) && Learned(view)[k] == view[i].raw
  {
    var line: Line :| line in view && (line.id, line.version) == k && Learned(view)[k] == line.raw;
    i :| 0 <= i < |view| && view[i] == line;
  }

  lemma {:induction false} NewestFrom(view: seq<Line>, id: nat) returns (i: nat)
    requires DistinctIds(view) && id in Newest(view)
    ensures i < |view| && id == view[i].id && Newest(view)[id] == view[i].raw
  {
    var line: Line :| line in view && line.id == id && Newest(view)[id] == line.raw;
    i :| 0 <= i < |view| && view[i] == line;
  }

  lemma {:induction false} LearnedHas(view: seq<Line>, i: nat)
    requires DistinctIds(view) && i < |view|
    ensures (view[i].id, view[i].version) in Learned(view)
    ensures Learned(view)[(view[i].id, view[i].version)] == view[i].raw
    ensures view[i].id in Newest(view) && Newest(view)[view[i].id] == view[i].raw
  {
    assert view[i] in view;
    var j := LearnedFrom(view, (view[i].id, view[i].version));
    var k := NewestFrom(view, view[i].id);
  }

  ghost predicate AllSucceed(view: seq<Line>, lastId: nat, view': seq<Line>, lastId': nat) {
    lastId <= lastId' && forall i :: 0 <= i < |view'| ==> Succeeds(view, lastId, lastId', view'[i])
  }

  lemma {:induction false} KnownKept(view: seq<Line>, lastId: nat, known: map<(nat, nat), string>,
                                     latest: map<nat, string>, view': seq<Line>, lastId': nat)
    requires History(view, lastId, known, latest)
    requires DistinctIds(view') && AllSucceed(view, lastId, view', lastId')
    ensures KnownExtends(known, known + Learned(view'))
    ensures LatestExtends(latest, latest + Newest(view'))
  {
    hide Learned, Newest;
    forall k: (nat, nat) | k in known ensures (known + Learned(view'))[k] == known[k] {
      if k in Learned(view') {
        var i := LearnedFrom(view', k);
        assert Succeeds(view, lastId, lastId', view'[i]);
      }
    }
    forall id: nat | id in latest ensures latest[id] <= (latest + Newest(view'))[id] {
      if id in Newest(view') {
        var i := NewestFrom(view', id);
        assert Succeeds(view, lastId, lastId', view'[i]);
      }
    }
  }

  lemma {:induction false} StillIssued(view: seq<Line>, lastId: nat, known: map<(nat, nat), string>,
                                       latest: map<nat, string>, view': seq<Line>, lastId': nat)
    requires IdsIssued(view, lastId, known, latest)
    requires DistinctIds(view') && AllSucceed(view, lastId, view', lastId')
    ensures IdsIssued(view', lastId', known + Learned(view'), latest + Newest(view'))
  {
    hide Learned, Newest;
    forall i | 0 <= i < |view'| ensures view'[i].id <= lastId' {
      assert Succeeds(view, lastId, lastId', view'[i]);
    }
    forall k: (nat, nat) | k in known + Learned(view') ensures k.0 <= lastId' {
      if k in Learned(view') {
        var i := LearnedFrom(view', k);
      }
    }
    forall id: nat | id in latest + Newest(view') ensures id <= lastId' {
      if id in Newest(view') {
        var i := NewestFrom(view', id);
      }
    }
  }

  lemma {:induction false} StillLead(view: seq<Line>, lastId: nat, known: map<(nat, nat), string>,
                                     latest: map<nat, string>, view': seq<Line>, lastId': nat)
    requires History(view, lastId, known, latest)
    requires DistinctIds(view') && AllSucceed(view, lastId, view', lastId')
    ensures VersionsLead(view', known + Learned(view'))
  {
    hide Learned;
    forall i, v: nat | 0 <= i < |view'| && (view'[i].id, v) in known + Learned(view')
      ensures v <= view'[i].version
    {
      assert Succeeds(view, lastId, lastId', view'[i]);
      if (view'[i].id, v) in Learned(view') {
        var j := LearnedFrom(view', (view'[i].id, v));
      }
    }
  }

  /** The texts of a view are what is learned from it. */
  lemma {:induction false} ViewLearned(view: seq<Line>, known: map<(nat, nat), string>, latest: map<nat, string>)
    requires DistinctIds(view)
    ensures LinesKnown(view, known + Learned(view)) && LatestKnown(view, latest + Newest(view))
  {
    hide Learned, Newest, DistinctIds;
    forall i | 0 <= i < |view|
      ensures (view[i].id, view[i].version) in Learned(view) && view[i].id in Newest(view)
      ensures Learned(view)[(view[i].id, view[i].version)] == view[i].raw
      ensures Newest(view)[view[i].id] == view[i].raw
    {
      LearnedHas(view, i);
    }
  }

  lemma {:induction false} HistoryGrows(view: seq<Line>, lastId: nat, known: map<(nat, nat), string>,
                                        latest: map<nat, string>, view': seq<Line>, lastId': nat)
    requires History(view, lastId, known, latest)
    requires DistinctIds(view') && AllSucceed(view, lastId, view', lastId')
    ensures History(view', lastId', known + Learned(view'), latest + Newest(view'))
    ensures KnownExtends(known, known + Learned(view'))
    ensures LatestExtends(latest, latest + Newest(view'))
  {
    hide DistinctIds, LinesKnown, LatestKnown, VersionsLead, IdsIssued, Learned, Newest, AllSucceed, KnownExtends,
      LatestExtends;
    KnownKept(view, lastId, known, latest, view', lastId');
    StillIssued(view, lastId, known, latest, view', lastId');
    StillLead(view, lastId, known, latest, view', lastId');
    ViewLearned(view', known, latest);
  }
}
