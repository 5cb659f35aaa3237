/** Scanning a text into lines, and keeping line identities across an update. */
module LineReuse {
  import opened Basics
  import opened SourceText
  import opened Markdown
  import opened Restart
  import opened LineHistory

  ghost predicate Issued(lines: seq<SourceLine>, from: nat, lastId: nat) {
    forall i :: from <= i < |lines| ==> lines[i].id == lastId + 1 + (i - from) && lines[i].version == 0
  }

  lemma {:induction false} NonePushed(lines: seq<SourceLine>, lastId: nat)
    ensures Issued(lines, |lines|, lastId)
  {
  }

  lemma {:induction false} OnePushed(lines: seq<SourceLine>, from: nat, lastId: nat, line: SourceLine)
    requires from <= |lines| && Issued(lines, from, lastId)
    requires line.id == lastId + 1 + (|lines| - from) && line.version == 0
    ensures Issued(lines + [line], from, lastId)
    ensures SpansOf(lines + [line]) == SpansOf(lines) + [Span(line.start, line.end)]
  {
  }

  /** The shared scanning loop: pushes a line for each line feed and one for the tail. */
  method PushLines(text: string, from: nat, prefix: seq<SourceLine>, lastId: nat)
    returns (lines: seq<SourceLine>, lastId': nat)
    requires from <= |text|
    ensures prefix <= lines
    ensures SpansOf(lines) == SpansOf(prefix) + Spans(text, from)
    ensures Issued(lines, |prefix|, lastId)
    ensures lastId' == lastId + |lines| - |prefix|
  {
    hide Spans, Issued, SpansOf;
    lines, lastId' := prefix, lastId;
    NonePushed(lines, lastId);
    var start, index := from, from;
    while index < |text|
      invariant from <= start <= index <= |text|
      invariant forall k :: start <= k < index ==> text[k] != '\n'
      invariant prefix <= lines
      invariant SpansOf(lines) + Spans(text, start) == SpansOf(prefix) + Spans(text, from)
      invariant Issued(lines, |prefix|, lastId)
      invariant lastId' == lastId + |lines| - |prefix|
    {
      if text[index] == '\n' {
        LineEndUnique(text, start, index);
        FirstSpan(text, start);
        lastId' := lastId' + 1;
        OnePushed(lines, |prefix|, lastId, SourceLine(start, index, lastId', 0));
        lines := lines + [SourceLine(start, index, lastId', 0)];
        start := index + 1;
      }
      index := index + 1;
    }
    LineEndUnique(text, start, |text|);
    FirstSpan(text, start);
    lastId' := lastId' + 1;
    OnePushed(lines, |prefix|, lastId, SourceLine(start, |text|, lastId', 0));
    lines := lines + [SourceLine(start, |text|, lastId', 0)];
  }

  method ScanLines(text: string, lastId: nat) returns (lines: seq<SourceLine>, lastId': nat)
    ensures SpansOf(lines) == Spans(text, 0)
    ensures Issued(lines, 0, lastId) && lastId' == lastId + |lines|
  {
    lines, lastId' := PushLines(text, 0, [], lastId);
  }

  /** The last line after an append: the same line object, its end moved and its version counted up. */
  function Grown(last: SourceLine, end: nat): SourceLine {
    last.(end := end, version := if end > last.end then last.version + 1 else last.version)
  }

  method AppendedLines(oldText: string, oldLines: seq<SourceLine>, newText: string, lastId: nat)
    returns (lines: seq<SourceLine>, prefixCount: nat, reused: bool, lastId': nat)
    requires SpansOf(oldLines) == Spans(oldText, 0)
    requires oldText <= newText
    ensures prefixCount == |oldLines| - 1 && |lines| > prefixCount
    ensures SpansOf(lines) == Spans(newText, 0)
    ensures lines[..prefixCount] == oldLines[..prefixCount]
    ensures var issued := if reused then prefixCount + 1 else prefixCount;
            Issued(lines, issued, lastId) && lastId' == lastId + |lines| - issued
    ensures reused ==> lines[prefixCount] == Grown(oldLines[prefixCount], lines[prefixCount].end)
                       && lines[prefixCount].end >= oldLines[prefixCount].end > oldLines[prefixCount].start
  {
    AppendSpans(oldText, oldLines, newText);
    hide Spans, Issued, SpansOf;
    prefixCount := |oldLines| - 1;
    var last := oldLines[prefixCount];
    var kept := oldLines[..prefixCount];
    if |oldText| == 0 || oldText[|oldText| - 1] == '\n' {
      reused := false;
      lines, lastId' := PushLines(newText, |oldText|, kept, lastId);
    } else {
      reused := true;
      lines, lastId' := GrowLast(newText, |oldText|, kept, last, lastId);
    }
    assert lines[..prefixCount] == kept;
  }

  /** The last line runs on to its new end; further lines are pushed after it. */
  method GrowLast(newText: string, oldEnd: nat, kept: seq<SourceLine>, last: SourceLine, lastId: nat)
    returns (lines: seq<SourceLine>, lastId': nat)
    requires last.start <= last.end == oldEnd <= |newText|
    requires forall k :: last.start <= k < oldEnd ==> newText[k] != '\n'
    ensures kept <= lines && |kept| < |lines|
    ensures SpansOf(lines) == SpansOf(kept) + Spans(newText, last.start)
    ensures Issued(lines, |kept| + 1, lastId) && lastId' == lastId + |lines| - |kept| - 1
    ensures lines[|kept|] == Grown(last, lines[|kept|].end) && lines[|kept|].end >= last.end
  {
    var lastEnd := LineEnd(newText, oldEnd);
    LineEndUnique(newText, last.start, lastEnd);
    var tail := [Grown(last, lastEnd)];
    GrownSpan(kept, last, lastEnd);
    if lastEnd == |newText| {
      lines, lastId' := kept + tail, lastId;
    } else {
      lines, lastId' := PushLines(newText, lastEnd + 1, kept + tail, lastId);
      assert lines[|kept|] == (kept + tail)[|kept|];
    }
  }

  lemma {:induction false} GrownSpan(kept: seq<SourceLine>, last: SourceLine, end: nat)
    ensures SpansOf(kept + [Grown(last, end)]) == SpansOf(kept) + [Span(last.start, end)]
  {
  }

  lemma {:induction false} AppendSpans(oldText: string, oldLines: seq<SourceLine>, newText: string)
    requires SpansOf(oldLines) == Spans(oldText, 0) && oldText <= newText
    ensures |oldLines| >= 1
    ensures var last := oldLines[|oldLines| - 1];
            && last.start <= last.end == |oldText|
            && Spans(newText, 0) == SpansOf(oldLines[..|oldLines| - 1]) + Spans(newText, last.start)
            && (forall k :: last.start <= k < |oldText| ==> newText[k] != '\n')
            && (|oldText| == 0 || oldText[|oldText| - 1] == '\n' <==> last.start == |oldText|)
  {
    hide Spans, LineEnd;
    var n := |oldLines| - 1;
    SpansChained(oldText, 0);
    assert LineAt(oldText, Spans(oldText, 0), n) && (n > 0 ==> LineAt(oldText, Spans(oldText, 0), n - 1));
    SpansOfAppend(oldText, newText[|oldText|..], 0);
    assert newText == oldText + newText[|oldText|..];
    assert SpansOf(oldLines)[n] == Span(oldLines[n].start, oldLines[n].end);
    assert SpansOf(oldLines[..n]) == SpansOf(oldLines)[..n];
  }

  /** Line `i` of one text and line `j` of the other read the same. */
  predicate SameRaw(oldText: string, oldLines: seq<SourceLine>, i: int, newText: string, lines: seq<SourceLine>, j: int)
    requires Placed(oldText, oldLines) && Placed(newText, lines)
  {
    && 0 <= i < |oldLines| && 0 <= j < |lines|
    && LineOf(oldText, oldLines[i]).raw == LineOf(newText, lines[j]).raw
  }

  /** The same for the lines `k` before the last of each text. */
  predicate SameTail(oldText: string, oldLines: seq<SourceLine>, newText: string, lines: seq<SourceLine>, k: nat)
    requires Placed(oldText, oldLines) && Placed(newText, lines)
  {
    SameRaw(oldText, oldLines, |oldLines| - 1 - k, newText, lines, |lines| - 1 - k)
  }

  method CommonPrefix(oldText: string, oldLines: seq<SourceLine>, newText: string, lines: seq<SourceLine>)
    returns (count: nat)
    requires Placed(oldText, oldLines) && Placed(newText, lines)
    ensures count <= |oldLines| && count <= |lines|
    ensures forall i :: 0 <= i < count ==> SameRaw(oldText, oldLines, i, newText, lines, i)
    ensures !SameRaw(oldText, oldLines, count, newText, lines, count)
  {
    count := 0;
    while count < |oldLines| && count < |lines|
          && oldText[oldLines[count].start..oldLines[count].end] == newText[lines[count].start..lines[count].end]
      invariant count <= |oldLines| && count <= |lines|
      invariant forall i :: 0 <= i < count ==> SameRaw(oldText, oldLines, i, newText, lines, i)
    {
      count := count + 1;
    }
  }

  method CommonSuffix(oldText: string, oldLines: seq<SourceLine>, newText: string, lines: seq<SourceLine>, prefix: nat)
    returns (count: nat)
    requires Placed(oldText, oldLines) && Placed(newText, lines)
    requires prefix <= |oldLines| && prefix <= |lines|
    ensures prefix + count <= |oldLines| && prefix + count <= |lines|
    ensures forall k :: 0 <= k < count ==> SameTail(oldText, oldLines, newText, lines, k)
    ensures prefix + count == |oldLines| || prefix + count == |lines|
            || !SameTail(oldText, oldLines, newText, lines, count)
  {
    count := 0;
    var oldIndex, newIndex := |oldLines| - 1, |lines| - 1;
    while oldIndex >= prefix && newIndex >= prefix
          && oldText[oldLines[oldIndex].start..oldLines[oldIndex].end]
             == newText[lines[newIndex].start..lines[newIndex].end]
      invariant oldIndex == |oldLines| - 1 - count && newIndex == |lines| - 1 - count
      invariant prefix + count <= |oldLines| && prefix + count <= |lines|
      invariant forall k :: 0 <= k < count ==> SameTail(oldText, oldLines, newText, lines, k)
    {
      count := count + 1;
      oldIndex := oldIndex - 1;
      newIndex := newIndex - 1;
    }
  }

  /** Line `i` of the new text: the old line object at a new range, or the scanned line itself. */
  function Restored(oldLines: seq<SourceLine>, scanned: seq<SourceLine>, prefix: nat, suffix: nat, i: nat): SourceLine
    requires prefix + suffix <= |oldLines| && prefix + suffix <= |scanned| && i < |scanned|
  {
    if i < prefix then oldLines[i].(start := scanned[i].start, end := scanned[i].end)
    else if i < |scanned| - suffix then scanned[i]
    else oldLines[i + |oldLines| - |scanned|].(start := scanned[i].start, end := scanned[i].end)
  }

  method RestoreLines(oldLines: seq<SourceLine>, scanned: seq<SourceLine>, prefix: nat, suffix: nat)
    returns (lines: seq<SourceLine>)
    requires prefix + suffix <= |oldLines| && prefix + suffix <= |scanned|
    ensures |lines| == |scanned|
    ensures forall i :: 0 <= i < |lines| ==> lines[i] == Restored(oldLines, scanned, prefix, suffix, i)
  {
    lines := scanned;
    for index := 0 to prefix
      invariant |lines| == |scanned|
      invariant forall i :: 0 <= i < index ==> lines[i] == Restored(oldLines, scanned, prefix, suffix, i)
      invariant forall i :: index <= i < |lines| ==> lines[i] == scanned[i]
    {
      lines := lines[index := oldLines[index].(start := lines[index].start, end := lines[index].end)];
    }
    for k := 0 to suffix
      invariant |lines| == |scanned|
      invariant forall i :: 0 <= i < |lines| - suffix ==> lines[i] == Restored(oldLines, scanned, prefix, suffix, i)
      invariant forall i :: |lines| - suffix <= i < |lines| - k ==> lines[i] == scanned[i]
      invariant forall i :: |lines| - k <= i < |lines| ==> lines[i] == Restored(oldLines, scanned, prefix, suffix, i)
    {
      var newIndex, oldIndex := |lines| - 1 - k, |oldLines| - 1 - k;
      lines := lines[newIndex := oldLines[oldIndex].(start := lines[newIndex].start, end := lines[newIndex].end)];
    }
  }

  /** For any other new text: unchanged leading and trailing lines keep their identities. */
  method EditedLines(oldText: string, oldLines: seq<SourceLine>, newText: string, lastId: nat)
    returns (lines: seq<SourceLine>, prefixCount: nat, suffixCount: nat, ghost scanned: seq<SourceLine>, lastId': nat)
    requires Placed(oldText, oldLines)
    ensures SpansOf(lines) == Spans(newText, 0) && Placed(newText, scanned)
    ensures Issued(scanned, 0, lastId) && lastId' == lastId + |scanned|
    ensures prefixCount + suffixCount <= |oldLines| && prefixCount + suffixCount <= |scanned| == |lines|
    ensures forall i :: 0 <= i < |lines| ==> lines[i] == Restored(oldLines, scanned, prefixCount, suffixCount, i)
    ensures forall i :: 0 <= i < prefixCount ==> SameRaw(oldText, oldLines, i, newText, scanned, i)
    ensures forall k :: 0 <= k < suffixCount ==> SameTail(oldText, oldLines, newText, scanned, k)
    ensures !SameRaw(oldText, oldLines, prefixCount, newText, scanned, prefixCount)
    ensures prefixCount + suffixCount == |oldLines| || prefixCount + suffixCount == |scanned|
            || !SameTail(oldText, oldLines, newText, scanned, suffixCount)
  {
    var fromScan: seq<SourceLine>;
    fromScan, lastId' := ScanLines(newText, lastId);
    scanned := fromScan;
    LinesPlaced(newText, scanned);
    prefixCount := CommonPrefix(oldText, oldLines, newText, fromScan);
    suffixCount := CommonSuffix(oldText, oldLines, newText, fromScan, prefixCount);
    lines := RestoreLines(oldLines, fromScan, prefixCount, suffixCount);
    assert SpansOf(lines) == SpansOf(scanned);
  }
}
