/**
 The body of a conversation entry as it is displayed: a text, its lines and its blocks.

 `ParseMarkdown` and the restart methods are proved equal to the specifications of `Markdown` and
 `Restart`; the class carries the invariant that makes reused lines and cached tables sound.
 */
module BodyDocuments {
  import opened Basics
  import opened SourceText
  import opened Markdown
  import opened Restart
  import opened LineHistory
  import opened LineReuse

  type Contexts = map<seq<(nat, nat)>, TableContext>

  ghost predicate ContextsKnown(contexts: Contexts, known: map<(nat, nat), string>) {
    forall key :: key in contexts ==> contexts[key].key == key && ContextKnown(contexts[key], known)
  }

  /** A cached context under the lines' own key is the context those lines would give afresh. */
  method BuildTableContext(group: seq<Line>, contexts: Contexts, ghost known: map<(nat, nat), string>)
    returns (context: TableContext)
    requires LinesKnown(group, known) && ContextsKnown(contexts, known)
    ensures context == ContextOf(group)
  {
    var key := KeyOf(group);
    if key in contexts {
      context := contexts[key];
      assert forall i :: 0 <= i < |group| ==> context.key[i] == (group[i].id, group[i].version);
      assert context.texts == TextsOf(group);
    } else {
      context := TableContext(key, TextsOf(group));
    }
  }

  /** A table group: header, separator and every data row that follows. */
  method ParseTable(lines: seq<Line>, start: nat, contexts: Contexts, ghost known: map<(nat, nat), string>)
    returns (blocks: seq<Block>, index: nat)
    requires start + 1 < |lines|
    requires LinesKnown(lines, known) && ContextsKnown(contexts, known)
    ensures index == TableEnd(lines, start + 2)
    ensures blocks == TableBlocks(lines[start..index], ContextOf(lines[start..index]))
  {
    index := start + 2;
    while index < |lines| && HasPipe(lines[index].raw) && !AllSpace(lines[index].raw)
      invariant start + 2 <= index <= |lines|
      invariant forall i :: start + 2 <= i < index ==> IsDataRow(lines[i].raw)
    {
      index := index + 1;
    }
    TableEndUnique(lines, start + 2, index);
    var context := BuildTableContext(lines[start..index], contexts, known);
    blocks := TableBlocks(lines[start..index], context);
  }

  /** One turn of the parser's loop. */
  method ParseTurn(g: Grammar, lines: seq<Line>, index: nat, currentFence: Option<Fence>, contexts: Contexts,
                   ghost known: map<(nat, nat), string>)
    returns (emitted: seq<Block>, next: nat, fence: Option<Fence>)
    requires index < |lines|
    requires LinesKnown(lines, known) && ContextsKnown(contexts, known)
    ensures Turn(emitted, next, fence) == Step(g, lines, index, currentFence)
  {
    var line := lines[index];
    next, fence := index + 1, None;
    if currentFence.Some? {
      if Closes(g, currentFence.value, line.raw) {
        emitted := [Fixed(line.id, FenceClose, line.raw, Some(currentFence.value.lineId), None, None)];
      } else {
        fence := currentFence;
        emitted := [Wrapped(line.id, line.raw, FlowShape(0, |line.raw|, "", "", false), false,
                            Some(currentFence.value.lineId), currentFence)];
      }
    } else if g.fence(line.raw).Some? {
      var mark := g.fence(line.raw).value;
      fence := Some(Fence(line.id, mark.indent, mark.marker));
      emitted := [Fixed(line.id, FenceOpen, line.raw, Some(line.id), None, fence)];
    } else if HasPipe(line.raw) && index + 1 < |lines| && g.separator(lines[index + 1].raw) {
      emitted, next := ParseTable(lines, index, contexts, known);
    } else {
      emitted := [StandaloneBlock(g, line)];
    }
  }

  method ParseMarkdown(g: Grammar, lines: seq<Line>, contexts: Contexts, initialFence: Option<Fence>,
                       ghost known: map<(nat, nat), string>)
    returns (blocks: seq<Block>)
    requires LinesKnown(lines, known) && ContextsKnown(contexts, known)
    ensures blocks == Parse(g, lines, 0, initialFence)
  {
    hide Step;
    blocks := [];
    var index, currentFence := 0, initialFence;
    while index < |lines|
      invariant index <= |lines|
      invariant blocks + Parse(g, lines, index, currentFence) == Parse(g, lines, 0, initialFence)
    {
      var emitted, next, fence := ParseTurn(g, lines, index, currentFence, contexts, known);
      assert blocks + (emitted + Parse(g, lines, next, fence)) == blocks + emitted + Parse(g, lines, next, fence);
      blocks, index, currentFence := blocks + emitted, next, fence;
    }
  }

  // Reading a tail of the lines by itself is reading the lines from there on.

  lemma {:induction false} SliceOfTail<T>(s: seq<T>, k: nat, start: nat, end: nat)
    requires start <= end && k + end <= |s|
    ensures s[k..][start..end] == s[k + start..k + end]
  {
  }

  lemma {:induction false} StepShifts(g: Grammar, lines: seq<Line>, k: nat, index: nat, fence: Option<Fence>)
    requires k + index < |lines|
    ensures var turn := Step(g, lines, k + index, fence);
            Step(g, lines[k..], index, fence) == Turn(turn.blocks, turn.next - k, turn.fence)
  {
    hide TableBlocks, ContextOf, StandaloneBlock;
    var tail := lines[k..];
    var turn := Step(g, lines, k + index, fence);
    if fence.None? && g.fence(lines[k + index].raw).None? && OpensTable(g, lines, k + index) {
      TableEndUnique(tail, index + 2, turn.next - k);
      SliceOfTail(lines, k, index, turn.next - k);
    }
  }

  lemma {:induction false} ParseShifts(g: Grammar, lines: seq<Line>, k: nat, index: nat, fence: Option<Fence>)
    requires k + index <= |lines|
    ensures Parse(g, lines[k..], index, fence) == Parse(g, lines, k + index, fence)
    decreases |lines| - k - index
  {
    hide Step;
    if k + index < |lines| {
      var turn := Step(g, lines, k + index, fence);
      StepShifts(g, lines, k, index, fence);
      ParseShifts(g, lines, k, turn.next - k, turn.fence);
    }
  }

  ghost predicate BlocksKnown(blocks: seq<Block>, known: map<(nat, nat), string>) {
    forall i :: 0 <= i < |blocks| && TableOf(blocks[i]).Some? ==> ContextKnown(TableOf(blocks[i]).value, known)
  }

  lemma {:induction false} ParsedKnown(g: Grammar, lines: seq<Line>, index: nat, fence: Option<Fence>,
                                       known: map<(nat, nat), string>)
    requires index <= |lines| && LinesKnown(lines, known)
    ensures BlocksKnown(Parse(g, lines, index, fence), known)
    decreases |lines| - index
  {
    if index < |lines| {
      var turn := Step(g, lines, index, fence);
      assert BlocksKnown(turn.blocks, known);
      hide Step;
      ParsedKnown(g, lines, turn.next, turn.fence, known);
    }
  }

  /** The contexts a re-read may find its tables in. */
  method OldTableContexts(blocks: seq<Block>, ghost known: map<(nat, nat), string>) returns (contexts: Contexts)
    requires BlocksKnown(blocks, known)
    ensures ContextsKnown(contexts, known)
  {
    contexts := map[];
    for i := 0 to |blocks|
      invariant ContextsKnown(contexts, known)
    {
      if blocks[i].TableRow? {
        assert TableOf(blocks[i]) == Some(blocks[i].context);
        contexts := contexts[blocks[i].context.key := blocks[i].context];
      }
    }
  }

  ghost predicate Ascending(lines: seq<SourceLine>) {
    forall i, j :: 0 <= i < j < |lines| ==> lines[i].start < lines[j].start
  }

  lemma {:induction false} LinesAscend(text: string, lines: seq<SourceLine>)
    requires SpansOf(lines) == Spans(text, 0)
    ensures Ascending(lines) && |lines| >= 1 && lines[0].start == 0
  {
    SpansChained(text, 0);
    assert SpansOf(lines)[0] == Span(lines[0].start, lines[0].end);
    forall i, j | 0 <= i < j < |lines| ensures lines[i].start < lines[j].start {
      ChainedAscending(text, SpansOf(lines), 0, i, j);
      assert LineAt(text, SpansOf(lines), i);
      assert SpansOf(lines)[i] == Span(lines[i].start, lines[i].end);
      assert SpansOf(lines)[j] == Span(lines[j].start, lines[j].end);
    }
  }

  /** Binary search for the line that starts at `start`; without one, the nearest in range. */
  method LineIndexAtStart(lines: seq<SourceLine>, start: nat) returns (index: nat)
    requires Ascending(lines) && |lines| >= 1
    ensures index < |lines|
    ensures forall at :: 0 <= at < |lines| && lines[at].start == start ==> index == at
  {
    var low, high := 0, |lines| - 1;
    while low <= high
      invariant 0 <= low <= high + 1 <= |lines|
      invariant forall at :: 0 <= at < |lines| && lines[at].start == start ==> low <= at <= high
      decreases high - low
    {
      var middle := (low + high) / 2;
      if lines[middle].start < start {
        low := middle + 1;
      } else if lines[middle].start > start {
        high := middle - 1;
      } else {
        return middle;
      }
    }
    index := if low < |lines| then low else |lines| - 1;
  }

  /** Where the header line of a table starts: the line object its context refers to. */
  method HeaderStart(lines: seq<SourceLine>, ghost view: seq<Line>, key: seq<(nat, nat)>)
    returns (start: nat, ghost at: nat)
    requires |view| == |lines| >= 1 && lines[0].start == 0
    requires forall i :: 0 <= i < |lines| ==> view[i].id == lines[i].id
    requires DistinctIds(view)
    ensures at < |lines| && lines[at].start == start
    ensures var header := if key == [] then None else IndexOf(view, key[0].0);
            at == if header.Some? then header.value else 0
  {
    start, at := 0, 0;
    if key != [] {
      for i := 0 to |lines|
        invariant forall j :: 0 <= j < i ==> view[j].id != key[0].0
        invariant start == 0 && at == 0
      {
        if lines[i].id == key[0].0 {
          IndexOfDistinct(view, i);
          return lines[i].start, i;
        }
      }
    }
  }

  method AppendMarkdownPlan(g: Grammar, text: string, priorText: string, priorLines: seq<SourceLine>,
                            priorBlocks: seq<Block>, nextLines: seq<SourceLine>, prefixCount: nat)
    returns (plan: Plan, contexts: Contexts)
    requires SpansOf(priorLines) == Spans(priorText, 0) && Placed(priorText, priorLines) && Placed(text, nextLines)
    requires DistinctIds(View(priorText, priorLines))
    requires |priorBlocks| == |priorLines| == prefixCount + 1 <= |nextLines|
    ensures plan == AppendPlan(g, View(priorText, priorLines), priorBlocks, View(text, nextLines), prefixCount)
    ensures forall key :: key in contexts ==>
              && contexts[key].key == key
              && exists i :: 0 <= i < |priorBlocks| && TableOf(priorBlocks[i]) == Some(contexts[key])
  {
    LinesAscend(priorText, priorLines);
    ghost var prior, next := View(priorText, priorLines), View(text, nextLines);
    var p := prefixCount;
    var candidate := LineOf(text, nextLines[p]).raw;
    var changed := priorBlocks[p];
    var tableContext := TableOf(changed);
    if tableContext.None? && p > 0 && TableOf(priorBlocks[p - 1]).Some? {
      if HasPipe(candidate) && !AllSpace(candidate) {
        tableContext := TableOf(priorBlocks[p - 1]);
      }
    }
    assert tableContext == TailTable(priorBlocks, p, candidate);
    if tableContext.Some? {
      var start, at := HeaderStart(priorLines, prior, tableContext.value.key);
      var restart := LineIndexAtStart(priorLines, start);
      return Plan(restart, None), map[tableContext.value.key := tableContext.value];
    }
    var fence := if p > 0 then FenceAfter(priorBlocks[p - 1]) else None;
    var restart := p;
    if fence.None? && p > 0 {
      var previousText := LineOf(text, nextLines[p - 1]).raw;
      if HasPipe(previousText) && g.separator(candidate) {
        restart := p - 1;
      }
    }
    return Plan(restart, fence), map[];
  }

  /** The earlier of `restart` and the line a group begins at. */
  method EarlierGroup(prior: seq<Line>, group: Option<nat>, restart: nat) returns (r: nat)
    requires DistinctIds(prior)
    ensures r == Earlier(prior, group, restart)
  {
    r := restart;
    if group.Some? {
      for i := 0 to |prior|
        invariant forall j :: 0 <= j < i ==> prior[j].id != group.value
        invariant r == restart
      {
        if prior[i].id == group.value {
          IndexOfDistinct(prior, i);
          return if i < restart then i else restart;
        }
      }
    }
  }

  /** One block stands for each line, in order, so the block of a line is found by its index. */
  method MarkdownRestartLine(prior: seq<Line>, blocks: seq<Block>, prefixCount: nat) returns (restart: nat)
    requires DistinctIds(prior) && |blocks| == |prior| && prefixCount <= |prior|
    ensures restart == EditRestart(prior, blocks, prefixCount)
  {
    restart := if prefixCount == 0 then 0 else prefixCount - 1;
    if prefixCount < |prior| {
      restart := EarlierGroup(prior, GroupOf(blocks[prefixCount]), restart);
    }
    if prefixCount > 0 {
      restart := EarlierGroup(prior, GroupOf(blocks[prefixCount - 1]), restart);
    }
  }

  /** How many leading lines of two views read the same. */
  function SharedLines(prior: seq<Line>, next: seq<Line>): (count: nat)
    ensures count <= |prior| && count <= |next|
    ensures forall i :: 0 <= i < count ==> prior[i].raw == next[i].raw
    ensures count < |prior| && count < |next| ==> prior[count].raw != next[count].raw
  {
    if |prior| > 0 && |next| > 0 && prior[0].raw == next[0].raw then 1 + SharedLines(prior[1..], next[1..]) else 0
  }

  lemma {:induction false} SharedLinesUnique(prior: seq<Line>, next: seq<Line>, count: nat)
    requires count <= |prior| && count <= |next|
    requires forall i :: 0 <= i < count ==> prior[i].raw == next[i].raw
    requires count < |prior| && count < |next| ==> prior[count].raw != next[count].raw
    ensures SharedLines(prior, next) == count
  {
    var shared := SharedLines(prior, next);
  }

  /** The line that grew in place, if one did: the last line before an append, which was not empty. */
  ghost predicate GrewInPlace(prior: seq<Line>, next: seq<Line>, i: nat)
    requires i < |next|
  {
    && i == |prior| - 1 && next[i].id == prior[i].id
    && prior[i].raw != "" && prior[i].raw <= next[i].raw
  }

  ghost predicate KeptLine(prior: seq<Line>, line: Line) {
    exists j :: 0 <= j < |prior| && prior[j] == line
  }

  /** Every line after an update is new, kept as it was, or, after an append, the last line grown in place. */
  ghost predicate LinesFollow(prior: seq<Line>, lastId: nat, next: seq<Line>, appended: bool) {
    forall i :: 0 <= i < |next| ==>
      lastId < next[i].id || KeptLine(prior, next[i]) || (appended && GrewInPlace(prior, next, i))
  }

  /** A line above the last stays as it was. */
  lemma {:induction false} LineKept(oldText: string, oldLines: seq<SourceLine>, newText: string, lines: seq<SourceLine>,
                                    p: nat, i: nat)
    requires oldText <= newText && Placed(oldText, oldLines) && Placed(newText, lines)
    requires i < p <= |oldLines| && p <= |lines| && lines[..p] == oldLines[..p]
    ensures View(oldText, oldLines)[i] == View(newText, lines)[i]
  {
    assert lines[i] == lines[..p][i] == oldLines[..p][i] == oldLines[i];
  }

  /** The last line before an append, when its line object is used again. */
  lemma {:induction false} LineGrown(oldText: string, oldLines: seq<SourceLine>, newText: string,
                                     lines: seq<SourceLine>, p: nat)
    requires oldText <= newText && Placed(oldText, oldLines) && Placed(newText, lines)
    requires p == |oldLines| - 1 && p < |lines| && lines[p] == Grown(oldLines[p], lines[p].end)
    requires lines[p].end >= oldLines[p].end > oldLines[p].start
    ensures var prior, next := View(oldText, oldLines), View(newText, lines);
            Continues(prior[p], next[p]) && GrewInPlace(prior, next, p)
  {
    var prior, next := LineOf(oldText, oldLines[p]).raw, LineOf(newText, lines[p]).raw;
    assert prior <= next by {
      assert forall k :: 0 <= k < |prior| ==> next[k] == prior[k];
    }
  }

  /** What an append makes of the lines, once each is known to be kept, grown or new. */
  lemma {:induction false} AppendFollows(prior: seq<Line>, next: seq<Line>, lastId: nat, lastId': nat, p: nat,
                                         reused: bool)
    requires p == |prior| - 1 && p < |next| && lastId <= lastId' && DistinctIds(prior)
    requires forall i :: 0 <= i < |prior| ==> prior[i].id <= lastId
    requires forall i :: 0 <= i < p ==> prior[i] == next[i]
    requires reused ==> Continues(prior[p], next[p]) && GrewInPlace(prior, next, p)
    requires forall i :: (if reused then p + 1 else p) <= i < |next| ==> lastId < next[i].id <= lastId'
    requires forall i, j :: (if reused then p + 1 else p) <= i < j < |next| ==> next[i].id != next[j].id
    ensures DistinctIds(next) && AllSucceed(prior, lastId, next, lastId') && LinesFollow(prior, lastId, next, true)
  {
    forall i | 0 <= i < |next|
      ensures lastId < next[i].id || KeptLine(prior, next[i]) || GrewInPlace(prior, next, i)
      ensures Succeeds(prior, lastId, lastId', next[i])
    {
      if i < p {
        assert prior[i] == next[i] && Continues(prior[i], next[i]);
      }
    }
    forall i, j | 0 <= i < j < |next| ensures next[i].id != next[j].id {
      if i < p {
        assert prior[i].id <= lastId;
        assert j <= p ==> prior[i].id != prior[j].id;
      }
    }
  }

  /** What an append makes of the lines. */
  lemma {:induction false} AppendSucceeds(oldText: string, oldLines: seq<SourceLine>, newText: string,
                                          lines: seq<SourceLine>, lastId: nat, lastId': nat, p: nat, reused: bool)
    requires SpansOf(oldLines) == Spans(oldText, 0) && SpansOf(lines) == Spans(newText, 0)
    requires oldText <= newText && Placed(oldText, oldLines) && Placed(newText, lines)
    requires p == |oldLines| - 1 && |lines| > p && lines[..p] == oldLines[..p]
    requires var issued := if reused then p + 1 else p;
             Issued(lines, issued, lastId) && lastId' == lastId + |lines| - issued
    requires reused ==> lines[p] == Grown(oldLines[p], lines[p].end)
    requires reused ==> lines[p].end >= oldLines[p].end > oldLines[p].start
    requires DistinctIds(View(oldText, oldLines))
    requires forall i :: 0 <= i < |oldLines| ==> oldLines[i].id <= lastId
    ensures var prior, next := View(oldText, oldLines), View(newText, lines);
            && DistinctIds(next) && AllSucceed(prior, lastId, next, lastId') && LinesFollow(prior, lastId, next, true)
            && (forall i :: 0 <= i < p ==> prior[i] == next[i])
  {
    var prior, next := View(oldText, oldLines), View(newText, lines);
    hide View, Grown, LineOf, DistinctIds, AllSucceed, LinesFollow, GrewInPlace, Continues, SpansOf, Spans;
    forall i | 0 <= i < p ensures prior[i] == next[i] {
      LineKept(oldText, oldLines, newText, lines, p, i);
    }
    if reused {
      LineGrown(oldText, oldLines, newText, lines, p);
    }
    forall i | 0 <= i < |prior| ensures prior[i].id <= lastId {
      ViewIds(oldText, oldLines, i);
    }
    forall i | (if reused then p + 1 else p) <= i < |next| ensures next[i].id == lines[i].id {
      ViewIds(newText, lines, i);
    }
    AppendFollows(prior, next, lastId, lastId', p, reused);
  }

  lemma {:induction false} ViewIds(text: string, lines: seq<SourceLine>, i: nat)
    requires Placed(text, lines) && i < |lines|
    ensures View(text, lines)[i].id == lines[i].id
  {
  }

  lemma {:induction false} EditLine(oldText: string, oldLines: seq<SourceLine>, newText: string, lines: seq<SourceLine>,
                                    scanned: seq<SourceLine>, prefix: nat, suffix: nat, i: nat)
    requires Placed(oldText, oldLines) && Placed(newText, scanned) && Placed(newText, lines)
    requires prefix + suffix <= |oldLines| && prefix + suffix <= |scanned| == |lines| && i < |lines|
    requires lines[i] == Restored(oldLines, scanned, prefix, suffix, i)
    requires i < prefix ==> SameRaw(oldText, oldLines, i, newText, scanned, i)
    requires i >= |lines| - suffix ==> SameTail(oldText, oldLines, newText, scanned, |lines| - 1 - i)
    ensures var prior, next := View(oldText, oldLines), View(newText, lines);
            && (i < prefix ==> next[i] == prior[i])
            && (i >= |lines| - suffix ==> next[i] == prior[i + |oldLines| - |lines|])
            && (prefix <= i < |lines| - suffix ==> next[i].id == scanned[i].id)
  {
  }

  lemma {:induction false} EditDiffers(oldText: string, oldLines: seq<SourceLine>, newText: string,
                                       lines: seq<SourceLine>, scanned: seq<SourceLine>, prefix: nat, suffix: nat)
    requires Placed(oldText, oldLines) && Placed(newText, scanned) && Placed(newText, lines)
    requires prefix + suffix <= |oldLines| && prefix + suffix <= |scanned| == |lines|
    requires prefix < |lines| ==> lines[prefix] == Restored(oldLines, scanned, prefix, suffix, prefix)
    requires !SameRaw(oldText, oldLines, prefix, newText, scanned, prefix)
    ensures prefix < |oldLines| && prefix < |lines| ==> View(oldText, oldLines)[prefix] != View(newText, lines)[prefix]
  {
  }

  /** No two lines after an edit share an identity. */
  lemma {:induction false} EditDistinct(prior: seq<Line>, next: seq<Line>, scanned: seq<SourceLine>, lastId: nat,
                                        prefix: nat, suffix: nat)
    requires DistinctIds(prior) && Issued(scanned, 0, lastId) && |scanned| == |next|
    requires prefix + suffix <= |prior| && prefix + suffix <= |next|
    requires forall i :: 0 <= i < |prior| ==> prior[i].id <= lastId
    requires forall i :: 0 <= i < prefix ==> prior[i] == next[i]
    requires forall i :: |next| - suffix <= i < |next| ==> next[i] == prior[i + (|prior| - |next|)]
    requires forall i :: prefix <= i < |next| - suffix ==> next[i].id == scanned[i].id
    ensures DistinctIds(next)
  {
    forall i, j | 0 <= i < j < |next| ensures next[i].id != next[j].id {
      RestoredDistinct(prior, next, scanned, lastId, prefix, suffix, i, j);
    }
  }

  /** What any other change makes of the lines. */
  lemma {:induction false} EditSucceeds(oldText: string, oldLines: seq<SourceLine>, newText: string,
                                        lines: seq<SourceLine>, scanned: seq<SourceLine>, lastId: nat, lastId': nat,
                                        prefix: nat, suffix: nat)
    requires Placed(oldText, oldLines) && Placed(newText, scanned) && Placed(newText, lines)
    requires Issued(scanned, 0, lastId) && lastId' == lastId + |scanned|
    requires prefix + suffix <= |oldLines| && prefix + suffix <= |scanned| == |lines|
    requires forall i :: 0 <= i < |lines| ==> lines[i] == Restored(oldLines, scanned, prefix, suffix, i)
    requires forall i :: 0 <= i < prefix ==> SameRaw(oldText, oldLines, i, newText, scanned, i)
    requires forall k :: 0 <= k < suffix ==> SameTail(oldText, oldLines, newText, scanned, k)
    requires !SameRaw(oldText, oldLines, prefix, newText, scanned, prefix)
    requires DistinctIds(View(oldText, oldLines))
    requires forall i :: 0 <= i < |oldLines| ==> oldLines[i].id <= lastId
    ensures var prior, next := View(oldText, oldLines), View(newText, lines);
            && DistinctIds(next) && AllSucceed(prior, lastId, next, lastId') && LinesFollow(prior, lastId, next, false)
            && SharedLines(prior, next) == prefix
            && (forall i :: 0 <= i < prefix ==> prior[i] == next[i])
  {
    var prior, next := View(oldText, oldLines), View(newText, lines);
    hide View, Restored, SameRaw, SameTail, DistinctIds, AllSucceed, LinesFollow, SharedLines;
    forall i | 0 <= i < |next|
      ensures i < prefix ==> next[i] == prior[i]
      ensures i >= |next| - suffix ==> next[i] == prior[i + |oldLines| - |lines|]
      ensures prefix <= i < |next| - suffix ==> next[i].id == scanned[i].id
    {
      EditLine(oldText, oldLines, newText, lines, scanned, prefix, suffix, i);
    }
    forall i | 0 <= i < |prior| ensures prior[i].id <= lastId {
      ViewIds(oldText, oldLines, i);
    }
    EditFollows(prior, next, lastId, lastId', prefix, suffix);
    EditDistinct(prior, next, scanned, lastId, prefix, suffix);
    EditDiffers(oldText, oldLines, newText, lines, scanned, prefix, suffix);
    SharedLinesUnique(prior, next, prefix);
  }

  lemma {:induction false} EditFollows(prior: seq<Line>, next: seq<Line>, lastId: nat, lastId': nat, prefix: nat,
                                       suffix: nat)
    requires prefix + suffix <= |prior| && prefix + suffix <= |next|
    requires forall i :: 0 <= i < prefix ==> prior[i] == next[i]
    requires forall i :: |next| - suffix <= i < |next| ==> next[i] == prior[i + (|prior| - |next|)]
    requires lastId <= lastId' && forall i :: prefix <= i < |next| - suffix ==> lastId < next[i].id <= lastId'
    ensures LinesFollow(prior, lastId, next, false) && AllSucceed(prior, lastId, next, lastId')
  {
    forall i | 0 <= i < |next| ensures Succeeds(prior, lastId, lastId', next[i]) {
      if i < prefix {
        assert Continues(prior[i], next[i]);
      } else if i >= |next| - suffix {
        assert Continues(prior[i + (|prior| - |next|)], next[i]);
      }
    }
    forall i | 0 <= i < |next| ensures lastId < next[i].id || KeptLine(prior, next[i]) {
      if i < prefix {
        assert prior[i] == next[i];
      } else if i >= |next| - suffix {
        assert prior[i + (|prior| - |next|)] == next[i];
      }
    }
  }

  lemma {:induction false} RestoredDistinct(prior: seq<Line>, next: seq<Line>, scanned: seq<SourceLine>, lastId: nat,
                                            prefix: nat, suffix: nat, i: nat, j: nat)
    requires DistinctIds(prior) && Issued(scanned, 0, lastId) && |scanned| == |next|
    requires prefix + suffix <= |prior| && prefix + suffix <= |next|
    requires forall i :: 0 <= i < |prior| ==> prior[i].id <= lastId
    requires forall i :: 0 <= i < prefix ==> prior[i] == next[i]
    requires forall i :: |next| - suffix <= i < |next| ==> next[i] == prior[i + (|prior| - |next|)]
    requires forall i :: prefix <= i < |next| - suffix ==> next[i].id == scanned[i].id
    requires i < j < |next|
    ensures next[i].id != next[j].id
  {
    var shift := |prior| - |next|;
    var i' := if i < prefix then i else i + shift;
    var j' := if j < prefix then j else j + shift;
    if (i < prefix || i >= |next| - suffix) && (j < prefix || j >= |next| - suffix) {
      assert next[i] == prior[i'] && next[j] == prior[j'] && i' < j';
    }
  }

  /** Blocks after any other change: those above the restart line are kept, the rest is read again. */
  function Edited(g: Grammar, prior: seq<Line>, blocks: seq<Block>, next: seq<Line>): seq<Block>
    requires |blocks| == |prior|
  {
    var restart := EditRestart(prior, blocks, SharedLines(prior, next));
    blocks[..restart] + Parse(g, next, restart, None)
  }

  function PlainBlocks(lines: seq<SourceLine>): (blocks: seq<Block>)
    ensures |blocks| == |lines|
    ensures forall i :: 0 <= i < |lines| ==> blocks[i] == Plain(lines[i].id)
  {
    seq(|lines|, i requires 0 <= i < |lines| => Plain(lines[i].id))
  }

  lemma {:induction false} IdsBelow(text: string, lines: seq<SourceLine>, lastId: nat,
                                    known: map<(nat, nat), string>, latest: map<nat, string>)
    requires Placed(text, lines) && IdsIssued(View(text, lines), lastId, known, latest)
    ensures forall i :: 0 <= i < |lines| ==> lines[i].id <= lastId
  {
    forall i | 0 <= i < |lines| ensures lines[i].id <= lastId {
      assert View(text, lines)[i].id <= lastId;
    }
  }

  lemma {:induction false} SpliceKnown(blocks: seq<Block>, restart: nat, tail: seq<Block>,
                                       known: map<(nat, nat), string>, known': map<(nat, nat), string>)
    requires restart <= |blocks| && BlocksKnown(blocks, known) && KnownExtends(known, known')
    requires BlocksKnown(tail, known')
    ensures BlocksKnown(blocks[..restart] + tail, known')
  {
    var spliced := blocks[..restart] + tail;
    forall i | 0 <= i < |spliced| && TableOf(spliced[i]).Some?
      ensures ContextKnown(TableOf(spliced[i]).value, known')
    {
      if i < restart {
        assert spliced[i] == blocks[i];
        assert ContextKnown(TableOf(blocks[i]).value, known);
      } else {
        assert spliced[i] == tail[i - restart];
      }
    }
  }

  lemma {:induction false} ContextsStayKnown(contexts: Contexts, known: map<(nat, nat), string>,
                                             known': map<(nat, nat), string>)
    requires ContextsKnown(contexts, known) && KnownExtends(known, known')
    ensures ContextsKnown(contexts, known')
  {
    forall key | key in contexts ensures contexts[key].key == key && ContextKnown(contexts[key], known') {
      assert ContextKnown(contexts[key], known);
    }
  }

  lemma {:induction false} LinesStayKnown(lines: seq<Line>, restart: nat, known: map<(nat, nat), string>)
    requires LinesKnown(lines, known) && restart <= |lines|
    ensures LinesKnown(lines[restart..], known)
  {
  }

  /** Blocks of an appended Markdown text. */
  method AppendBlocks(g: Grammar, text: string, priorText: string, priorLines: seq<SourceLine>,
                      priorBlocks: seq<Block>, nextLines: seq<SourceLine>, p: nat,
                      ghost known: map<(nat, nat), string>, ghost known': map<(nat, nat), string>)
    returns (blocks: seq<Block>)
    requires SpansOf(priorLines) == Spans(priorText, 0) && Placed(priorText, priorLines) && Placed(text, nextLines)
    requires DistinctIds(View(priorText, priorLines))
    requires |priorBlocks| == |priorLines| == p + 1 <= |nextLines|
    requires BlocksKnown(priorBlocks, known) && KnownExtends(known, known')
    requires LinesKnown(View(text, nextLines), known')
    ensures var prior, next := View(priorText, priorLines), View(text, nextLines);
            && AppendPlan(g, prior, priorBlocks, next, p).restart <= p
            && blocks == Appended(g, prior, priorBlocks, next, p)
    ensures |blocks| == |nextLines| && BlocksKnown(blocks, known')
  {
    hide Parse, Step;
    var plan, contexts := AppendMarkdownPlan(g, text, priorText, priorLines, priorBlocks, nextLines, p);
    ghost var next := View(text, nextLines);
    var suffix := View(text, nextLines)[plan.restart..];
    forall key | key in contexts ensures contexts[key].key == key && ContextKnown(contexts[key], known') {
      var i :| 0 <= i < |priorBlocks| && TableOf(priorBlocks[i]) == Some(contexts[key]);
      assert ContextKnown(TableOf(priorBlocks[i]).value, known);
    }
    var suffixBlocks := ParseMarkdown(g, suffix, contexts, plan.fence, known');
    ParseShifts(g, next, plan.restart, 0, plan.fence);
    ParsedKnown(g, next, plan.restart, plan.fence, known');
    SpliceKnown(priorBlocks, plan.restart, suffixBlocks, known, known');
    blocks := priorBlocks[..plan.restart] + suffixBlocks;
  }

  /** Blocks of a Markdown text changed in any other way; `p` leading lines are unchanged. */
  method EditBlocks(g: Grammar, text: string, priorText: string, priorLines: seq<SourceLine>,
                    priorBlocks: seq<Block>, nextLines: seq<SourceLine>, p: nat,
                    ghost known: map<(nat, nat), string>, ghost known': map<(nat, nat), string>)
    returns (blocks: seq<Block>)
    requires Placed(priorText, priorLines) && Placed(text, nextLines)
    requires DistinctIds(View(priorText, priorLines))
    requires |priorBlocks| == |priorLines|
    requires p == SharedLines(View(priorText, priorLines), View(text, nextLines))
    requires BlocksKnown(priorBlocks, known) && KnownExtends(known, known')
    requires LinesKnown(View(text, nextLines), known')
    ensures blocks == Edited(g, View(priorText, priorLines), priorBlocks, View(text, nextLines))
    ensures |blocks| == |nextLines| && BlocksKnown(blocks, known')
  {
    hide Parse, Step, BlocksKnown, LinesKnown, KnownExtends, Placed, DistinctIds;
    var restart := MarkdownRestartLine(View(priorText, priorLines), priorBlocks, p);
    ghost var next := View(text, nextLines);
    var suffix := View(text, nextLines)[restart..];
    var contexts := OldTableContexts(priorBlocks, known);
    ContextsStayKnown(contexts, known, known');
    LinesStayKnown(next, restart, known');
    var suffixBlocks := ParseMarkdown(g, suffix, contexts, None, known');
    ParseShifts(g, next, restart, 0, None);
    ParsedKnown(g, next, restart, None, known');
    SpliceKnown(priorBlocks, restart, suffixBlocks, known, known');
    blocks := priorBlocks[..restart] + suffixBlocks;
  }

  class BodyDocument {
    const g: Grammar
    const markdown: bool
    var text: string
    var lines: seq<SourceLine>
    var blocks: seq<Block>
    /** The counter behind line identities; none is ever issued twice. */
    var lastId: nat
    /** Every text an identity with its version, or an identity alone, has stood for. */
    ghost var known: map<(nat, nat), string>
    ghost var latest: map<nat, string>

    ghost predicate Valid()
      reads this
    {
      && SpansOf(lines) == Spans(text, 0)
      && Placed(text, lines)
      && History(View(text, lines), lastId, known, latest)
      && |blocks| == |lines|
      && (if markdown then BlocksKnown(blocks, known) else blocks == PlainBlocks(lines))
    }

    ghost function Lines(): seq<Line>
      reads this
      requires Valid()
    {
      View(text, lines)
    }

    /** The blocks are those of a document built afresh on the text. */
    ghost predicate Faithful()
      reads this
      requires Valid()
    {
      blocks == if markdown then Parse(g, Lines(), 0, None) else PlainBlocks(lines)
    }

    constructor (g: Grammar, text: string, markdown: bool)
      ensures Valid() && Faithful()
      ensures this.g == g && this.text == text && this.markdown == markdown
    {
      hide Parse, Step, Learned, Newest;
      this.g, this.text, this.markdown := g, text, markdown;
      var lines, lastId := ScanLines(text, 0);
      LinesPlaced(text, lines);
      ghost var view := View(text, lines);
      assert DistinctIds(view);
      assert AllSucceed([], 0, view, lastId);
      HistoryGrows([], 0, map[], map[], view, lastId);
      this.lines, this.lastId := lines, lastId;
      this.known, this.latest := map[] + Learned(view), map[] + Newest(view);
      if markdown {
        var read := ParseMarkdown(g, View(text, lines), map[], None, map[] + Learned(view));
        this.blocks := read;
        ParsedKnown(g, view, 0, None, map[] + Learned(view));
      } else {
        this.blocks := PlainBlocks(lines);
      }
    }

    /** Lines of an appended text; the parser restarts near the tail. */
    method Append(newText: string)
      requires Valid() && text <= newText
      modifies this
      ensures Valid() && text == newText
      ensures KnownExtends(old(known), known) && LatestExtends(old(latest), latest)
      ensures LinesFollow(old(Lines()), old(lastId), Lines(), true) && old(lastId) <= lastId
      ensures var prior, next, p := old(Lines()), Lines(), |old(lines)| - 1;
              && 0 <= p < |next|
              && (forall i :: 0 <= i < p ==> prior[i] == next[i])
              && (markdown ==> AppendPlan(g, prior, old(blocks), next, p).restart <= p
                               && blocks == Appended(g, prior, old(blocks), next, p))
    {
      hide Parse, Step, Appended, Edited, Learned, Newest, VersionsLead, IdsIssued, KnownExtends, LatestExtends,
        BlocksKnown, AppendPlan, LinesFollow, SameRaw, SameTail, Restored, SharedLines, Placed, DistinctIds, LinesKnown,
        LatestKnown, Issued, Grown, Spans, SpansOf, View, PlainBlocks;
      var priorText, priorLines, priorBlocks := text, lines, blocks;
      ghost var prior := Lines();
      IdsBelow(priorText, priorLines, lastId, known, latest);
      var nextLines, p, reused, lastId' := AppendedLines(priorText, priorLines, newText, lastId);
      LinesPlaced(newText, nextLines);
      AppendSucceeds(priorText, priorLines, newText, nextLines, lastId, lastId', p, reused);
      ghost var next := View(newText, nextLines);
      HistoryGrows(prior, lastId, known, latest, next, lastId');
      ghost var known', latest' := known + Learned(next), latest + Newest(next);
      if markdown {
        blocks := AppendBlocks(g, newText, priorText, priorLines, priorBlocks, nextLines, p, known, known');
      } else {
        blocks := PlainBlocks(nextLines);
      }
      text, lines, lastId := newText, nextLines, lastId';
      known, latest := known', latest';
    }

    /** Lines of any other text; the parser restarts above the first change. */
    method Edit(newText: string)
      requires Valid()
      modifies this
      ensures Valid() && text == newText
      ensures KnownExtends(old(known), known) && LatestExtends(old(latest), latest)
      ensures LinesFollow(old(Lines()), old(lastId), Lines(), false) && old(lastId) <= lastId
      ensures var prior, next := old(Lines()), Lines();
              && (forall i :: 0 <= i < SharedLines(prior, next) ==> prior[i] == next[i])
              && (markdown ==> blocks == Edited(g, prior, old(blocks), next))
    {
      hide Parse, Step, Appended, Edited, Learned, Newest, VersionsLead, IdsIssued, KnownExtends, LatestExtends,
        BlocksKnown, AppendPlan, LinesFollow, SameRaw, SameTail, Restored, SharedLines, Placed, DistinctIds, LinesKnown,
        LatestKnown;
      var priorText, priorLines, priorBlocks := text, lines, blocks;
      ghost var prior := Lines();
      IdsBelow(priorText, priorLines, lastId, known, latest);
      var nextLines, p, s, scanned, lastId' := EditedLines(priorText, priorLines, newText, lastId);
      LinesPlaced(newText, nextLines);
      EditSucceeds(priorText, priorLines, newText, nextLines, scanned, lastId, lastId', p, s);
      ghost var next := View(newText, nextLines);
      HistoryGrows(prior, lastId, known, latest, next, lastId');
      ghost var known', latest' := known + Learned(next), latest + Newest(next);
      if markdown {
        blocks := EditBlocks(g, newText, priorText, priorLines, priorBlocks, nextLines, p, known, known');
      } else {
        blocks := PlainBlocks(nextLines);
      }
      text, lines, lastId := newText, nextLines, lastId';
      known, latest := known', latest';
    }

    /**
     The whole update. A faithful document stays faithful except for the one misread append, and
     every cache key keeps its meaning.
     */
    method Update(newText: string)
      requires Valid() && CloseHasNoPipe(g)
      modifies this
      ensures Valid() && text == newText
      ensures newText == old(text) ==> lines == old(lines) && blocks == old(blocks)
      ensures KnownExtends(old(known), known) && LatestExtends(old(latest), latest)
      ensures LinesFollow(old(Lines()), old(lastId), Lines(), old(text) <= newText) && old(lastId) <= lastId
      ensures old(Faithful()) && !(old(text) <= newText) ==> Faithful()
      ensures old(Faithful()) && old(text) < newText ==>
                var p := |old(lines)| - 1;
                p < |lines| && (Faithful() <==> !(markdown && Misread(g, old(blocks), Lines(), p)))
    {
      if newText == text {
        return;
      }
      ghost var prior, faithful := Lines(), Faithful();
      if text <= newText {
        Append(newText);
        if faithful && markdown {
          AppendExact(g, prior, Lines(), |prior| - 1);
        }
      } else {
        Edit(newText);
        if faithful && markdown {
          EditExact(g, prior, Lines(), SharedLines(prior, Lines()));
        }
      }
    }
  }
}
