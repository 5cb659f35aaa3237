/**
 Where an edited Markdown document may restart its parser.

 `AppendExact` and `EditExact` compare the spliced block list with reading the whole text again.
 The append shortcut is wrong in one situation only, `Misread`, and the theorem is an equivalence.
 */
module Restart {
  import opened Basics
  import opened Markdown

  ghost predicate DistinctIds(lines: seq<Line>) {
    forall i, j :: 0 <= i < j < |lines| ==> lines[i].id != lines[j].id
  }

  /** What a block of a fresh reading says about its own line. */
  predicate Describes(block: Block, line: Line) {
    && !block.Plain?
    && block.line == line.id
    && (block.Fixed? || block.Wrapped? ==> block.raw == line.raw)
    && (block.Fixed? ==> (block.table.Some? <==> block.fixedKind == TableSeparator))
    && (TableOf(block).Some? ==>
          && |TableOf(block).value.key| >= 2
          && GroupOf(block) == Some(TableOf(block).value.key[0].0))
    && (GroupOf(block).None? ==> IsHead(block) && FenceAfter(block).None?)
    && (GroupOf(block).Some? && TableOf(block).None? && FenceAfter(block).None? ==>
          block.Fixed? && block.fixedKind == FenceClose)
  }

  /** Begins its own group, or belongs to none; the parser stood here outside every fence. */
  predicate Starts(block: Block, line: Line) {
    IsHead(block) && (GroupOf(block).Some? ==> GroupOf(block) == Some(line.id))
  }

  /** Relation of a block to the one above it, `fence` being open in between. */
  predicate Joins(above: Block, block: Block, line: Line) {
    || (FenceAfter(above).None? && Starts(block, line))
    || (GroupOf(block).Some? && GroupOf(above) == GroupOf(block))
  }

  /** A header is followed by its separator. */
  predicate HeaderFollowed(block: Block, below: Block) {
    block.TableRow? && block.rowIndex == 0 ==> TableOf(below).Some?
  }

  /** What the blocks of one turn of the parser are. */
  ghost predicate TurnHolds(lines: seq<Line>, index: nat, fence: Option<Fence>, turn: Turn)
    requires index < |lines|
  {
    && index < turn.next <= |lines| && |turn.blocks| == turn.next - index
    && (forall k :: 0 <= k < |turn.blocks| ==> Describes(turn.blocks[k], lines[index + k]))
    && (forall k :: 1 <= k < |turn.blocks| ==> Joins(turn.blocks[k - 1], turn.blocks[k], lines[index + k]))
    && (forall k :: 1 <= k < |turn.blocks| ==> HeaderFollowed(turn.blocks[k - 1], turn.blocks[k]))
    && var last := turn.blocks[|turn.blocks| - 1];
    && !(last.TableRow? && last.rowIndex == 0)
    && FenceAfter(last) == turn.fence
    && (if fence.Some? then GroupOf(turn.blocks[0]) == Some(fence.value.lineId)
        else Starts(turn.blocks[0], lines[index]))
    && (turn.fence.Some? ==> GroupOf(last) == Some(turn.fence.value.lineId))
  }

  lemma {:induction false} TableBlockHolds(group: seq<Line>, k: nat)
    requires 2 <= |group| && k < |group|
    ensures var block := TableBlock(group, ContextOf(group), k);
            && Describes(block, group[k])
            && FenceAfter(block).None? && GroupOf(block) == Some(group[0].id)
            && (block.TableRow? && block.rowIndex == 0 <==> k == 0)
            && (k == 0 ==> IsHead(block)) && TableOf(block).Some?
  {
  }

  lemma {:induction false} TableTurnHolds(lines: seq<Line>, index: nat, stop: nat)
    requires index + 2 <= stop <= |lines|
    ensures var group := lines[index..stop];
            TurnHolds(lines, index, None, Turn(TableBlocks(group, ContextOf(group)), stop, None))
  {
    hide Describes, TableBlock, TableOf, GroupOf, FenceAfter, IsHead, ContextOf;
    var group := lines[index..stop];
    var blocks := TableBlocks(group, ContextOf(group));
    forall k | 0 <= k < |blocks| ensures Describes(blocks[k], lines[index + k]) {
      TableBlockHolds(group, k);
    }
    forall k | 1 <= k < |blocks|
      ensures Joins(blocks[k - 1], blocks[k], lines[index + k]) && HeaderFollowed(blocks[k - 1], blocks[k])
    {
      TableBlockHolds(group, k - 1);
      TableBlockHolds(group, k);
    }
    TableBlockHolds(group, 0);
    TableBlockHolds(group, |group| - 1);
  }

  lemma {:induction false} StepBlocks(g: Grammar, lines: seq<Line>, index: nat, fence: Option<Fence>)
    requires index < |lines|
    ensures TurnHolds(lines, index, fence, Step(g, lines, index, fence))
  {
    hide TableBlocks, TableEnd, TurnHolds, OpensTable;
    if fence.None? && g.fence(lines[index].raw).None? && OpensTable(g, lines, index) {
      assert index + 2 <= |lines| by { TableOpens(g, lines, index); }
      TableTurnHolds(lines, index, TableEnd(lines, index + 2));
    } else {
      OneBlockHolds(g, lines, index, fence);
    }
  }

  lemma {:induction false} TableOpens(g: Grammar, lines: seq<Line>, index: nat)
    requires index < |lines| && OpensTable(g, lines, index)
    ensures index + 2 <= |lines|
  {
  }

  lemma {:induction false} OneBlockHolds(g: Grammar, lines: seq<Line>, index: nat, fence: Option<Fence>)
    requires index < |lines|
    requires !(fence.None? && g.fence(lines[index].raw).None? && OpensTable(g, lines, index))
    ensures TurnHolds(lines, index, fence, Step(g, lines, index, fence))
  {
    hide TableBlocks, TableEnd, OpensTable, Closes;
  }

  /** Line by line, for a reading that starts anywhere in any fence state. */
  lemma {:induction false} ParseBlocks(g: Grammar, lines: seq<Line>, from: nat, fence: Option<Fence>, i: nat)
    requires from <= i < |lines|
    ensures var blocks := Parse(g, lines, from, fence);
            var block := blocks[i - from];
            && Describes(block, lines[i])
            && (if i > from then Joins(blocks[i - from - 1], block, lines[i])
                else if fence.Some? then GroupOf(block) == Some(fence.value.lineId)
                else Starts(block, lines[i]))
            && (block.TableRow? && block.rowIndex == 0 ==>
                  i + 1 < |lines| && HeaderFollowed(block, blocks[i + 1 - from]))
    decreases |lines| - from
  {
    hide Step, Describes, Starts, FenceAfter, GroupOf, HeaderFollowed;
    var turn := Step(g, lines, from, fence);
    var blocks := Parse(g, lines, from, fence);
    var rest := Parse(g, lines, turn.next, turn.fence);
    StepBlocks(g, lines, from, fence);
    assert blocks == turn.blocks + rest;
    if i < turn.next {
      var k := i - from;
      assert blocks[k] == turn.blocks[k] && lines[from + k] == lines[i];
      assert i > from ==> blocks[k - 1] == turn.blocks[k - 1];
      assert i + 1 < turn.next ==> blocks[k + 1] == turn.blocks[k + 1];
    } else {
      ParseBlocks(g, lines, turn.next, turn.fence, i);
      assert blocks[i - from] == rest[i - turn.next];
      if i > turn.next {
        assert blocks[i - from - 1] == rest[i - turn.next - 1];
      }
    }
  }

  /** A line at which the parser stood outside every fence. */
  predicate Clean(blocks: seq<Block>, i: nat) {
    i < |blocks| && IsHead(blocks[i]) && (i > 0 ==> FenceAfter(blocks[i - 1]).None?)
  }

  /** A grouped line leads back to the clean line its group begins at; any other line is clean itself. */
  lemma {:induction false} GroupStart(g: Grammar, lines: seq<Line>, i: nat) returns (s: nat)
    requires i < |lines|
    ensures var blocks := Parse(g, lines, 0, None);
            && s <= i && Clean(blocks, s)
            && (GroupOf(blocks[i]).None? ==> s == i)
            && (GroupOf(blocks[i]).Some? ==> GroupOf(blocks[i]) == Some(lines[s].id))
    decreases i
  {
    hide Parse, IsHead, FenceAfter, GroupOf;
    var blocks := Parse(g, lines, 0, None);
    ParseBlocks(g, lines, 0, None, i);
    if i == 0 || (FenceAfter(blocks[i - 1]).None? && Starts(blocks[i], lines[i])) {
      s := i;
    } else {
      s := GroupStart(g, lines, i - 1);
    }
  }

  /** The line above never resented its present neighbour. */
  lemma {:induction false} Settled(g: Grammar, lines: seq<Line>, from: nat, fence: Option<Fence>, to: nat)
    requires from < to < |lines|
    requires Walk(g, lines, from, fence, to).Some?
    ensures Undisturbed(g, Walk(g, lines, from, fence, to).value.0[to - from - 1], lines[to].raw)
    decreases |lines| - from
  {
    hide Step, Undisturbed;
    var turn := Step(g, lines, from, fence);
    var rest := Walk(g, lines, turn.next, turn.fence, to).value;
    assert Walk(g, lines, from, fence, to).value.0 == turn.blocks + rest.0;
    if turn.next < to {
      Settled(g, lines, turn.next, turn.fence, to);
    } else {
      SettledTurn(g, lines, from, fence);
    }
  }

  lemma {:induction false} SettledTurn(g: Grammar, lines: seq<Line>, from: nat, fence: Option<Fence>)
    requires from < |lines| && Step(g, lines, from, fence).next < |lines|
    ensures var turn := Step(g, lines, from, fence);
            Undisturbed(g, turn.blocks[turn.next - from - 1], lines[turn.next].raw)
  {
    hide IsDataRow, HasPipe, Closes;
  }

  /**
   Restarting at line `r` is right when the parser stood there, the lines above are unchanged and
   line `r` does not change what the line above it is.
   */
  lemma {:induction false} Resume(g: Grammar, prior: seq<Line>, next: seq<Line>, r: nat)
    requires r < |prior| && r < |next|
    requires forall i :: 0 <= i < r ==> prior[i] == next[i]
    requires IsHead(Parse(g, prior, 0, None)[r])
    requires r > 0 && prior[r] != next[r] ==> Undisturbed(g, Parse(g, prior, 0, None)[r - 1], next[r].raw)
    ensures var blocks := Parse(g, prior, 0, None);
            var fence := if r == 0 then None else FenceAfter(blocks[r - 1]);
            Parse(g, next, 0, None) == blocks[..r] + Parse(g, next, r, fence)
  {
    hide Step, Parse, Walk, FenceAfter, IsHead, Undisturbed;
    var blocks := Parse(g, prior, 0, None);
    WalkToHead(g, prior, 0, None, r);
    WalkSplits(g, prior, 0, None, r);
    var w := Walk(g, prior, 0, None, r).value;
    assert w.0 == blocks[..r];
    if r > 0 {
      Settled(g, prior, 0, None, r);
    }
    WalkLocal(g, prior, next, 0, None, r);
    WalkSplits(g, next, 0, None, r);
  }

  /** Position of a line by identity. */
  function IndexOf(lines: seq<Line>, id: nat): (index: Option<nat>)
    ensures index.Some? ==> index.value < |lines| && lines[index.value].id == id
    ensures index.None? ==> forall i :: 0 <= i < |lines| ==> lines[i].id != id
  {
    if |lines| == 0 then None
    else if lines[|lines| - 1].id == id then Some(|lines| - 1)
    else IndexOf(lines[..|lines| - 1], id)
  }

  /** Where an append resumes, and the fence it resumes in. */
  datatype Plan = Plan(restart: nat, fence: Option<Fence>)

  /** The table the changed tail belongs to: its own, or the one above when the tail is a data row. */
  function TailTable(blocks: seq<Block>, p: nat, candidate: string): Option<TableContext>
    requires p < |blocks|
  {
    if TableOf(blocks[p]).Some? then TableOf(blocks[p])
    else if p > 0 && IsDataRow(candidate) then TableOf(blocks[p - 1])
    else None
  }

  function AppendPlan(g: Grammar, prior: seq<Line>, blocks: seq<Block>, next: seq<Line>, p: nat): (plan: Plan)
    requires |blocks| == |prior| && p < |prior| && p < |next|
    ensures |prior| == p + 1 ==> plan.restart <= p
  {
    match TailTable(blocks, p, next[p].raw)
    case Some(context) =>
      var header := if context.key == [] then None else IndexOf(prior, context.key[0].0);
      Plan(if header.Some? then header.value else 0, None)
    case None =>
      var fence := if p > 0 then FenceAfter(blocks[p - 1]) else None;
      if fence.None? && p > 0 && HasPipe(next[p - 1].raw) && g.separator(next[p].raw) then Plan(p - 1, fence)
      else Plan(p, fence)
  }

  /** Blocks after an append: those above the restart line are kept, the rest is read again. */
  function Appended(g: Grammar, prior: seq<Line>, blocks: seq<Block>, next: seq<Line>, p: nat): seq<Block>
    requires |blocks| == |prior| && p < |prior| && p < |next|
    requires AppendPlan(g, prior, blocks, next, p).restart <= p
  {
    var plan := AppendPlan(g, prior, blocks, next, p);
    blocks[..plan.restart] + Parse(g, next, plan.restart, plan.fence)
  }

  /**
   The step back takes the last row of a table for the header of a new one: the changed tail is a
   separator row without a cell divider, below a row of a finished table that has one.
   */
  predicate Misread(g: Grammar, blocks: seq<Block>, next: seq<Line>, p: nat)
    requires p < |blocks| && p < |next|
  {
    && p > 0
    && TableOf(blocks[p]).None? && TableOf(blocks[p - 1]).Some?
    && HasPipe(next[p - 1].raw) && g.separator(next[p].raw) && !IsDataRow(next[p].raw)
  }

  lemma {:induction false} IndexOfDistinct(lines: seq<Line>, i: nat)
    requires DistinctIds(lines) && i < |lines|
    ensures IndexOf(lines, lines[i].id) == Some(i)
  {
  }

  /** A table line of a fresh reading leads back to a clean header line above it. */
  lemma {:induction false} HeaderLine(g: Grammar, lines: seq<Line>, i: nat) returns (s: nat)
    requires DistinctIds(lines) && i < |lines|
    requires TableOf(Parse(g, lines, 0, None)[i]).Some?
    ensures var blocks := Parse(g, lines, 0, None);
            var key := TableOf(blocks[i]).value.key;
            && s <= i && Clean(blocks, s) && |key| >= 2
            && IndexOf(lines, key[0].0) == Some(s)
            && (i + 1 == |lines| ==> s < i && !IsHead(blocks[i]))
  {
    hide Parse;
    var blocks := Parse(g, lines, 0, None);
    ParseBlocks(g, lines, 0, None, i);
    s := GroupStart(g, lines, i);
    IndexOfDistinct(lines, s);
  }

  lemma {:induction false} AppendInTable(g: Grammar, prior: seq<Line>, next: seq<Line>, p: nat)
    requires DistinctIds(prior) && |prior| == p + 1 && p < |next|
    requires forall i :: 0 <= i < p ==> prior[i] == next[i]
    requires TailTable(Parse(g, prior, 0, None), p, next[p].raw).Some?
    ensures var blocks := Parse(g, prior, 0, None);
            && AppendPlan(g, prior, blocks, next, p).restart <= p
            && Appended(g, prior, blocks, next, p) == Parse(g, next, 0, None)
  {
    hide Parse;
    var blocks := Parse(g, prior, 0, None);
    var s: nat;
    if TableOf(blocks[p]).Some? {
      s := HeaderLine(g, prior, p);
    } else {
      s := HeaderLine(g, prior, p - 1);
    }
    Resume(g, prior, next, s);
  }

  /** Between the header search and the step back: the tail simply resumes at its own line. */
  lemma {:induction false} AppendAtTail(g: Grammar, prior: seq<Line>, next: seq<Line>, p: nat)
    requires |prior| == p + 1 && p < |next|
    requires forall i :: 0 <= i < p ==> prior[i] == next[i]
    requires TailTable(Parse(g, prior, 0, None), p, next[p].raw).None?
    requires (p > 0 && FenceAfter(Parse(g, prior, 0, None)[p - 1]).None? && HasPipe(next[p - 1].raw)
              && g.separator(next[p].raw)) ==> TableOf(Parse(g, prior, 0, None)[p - 1]).Some?
    ensures var blocks := Parse(g, prior, 0, None);
            var fence := if p == 0 then None else FenceAfter(blocks[p - 1]);
            Parse(g, next, 0, None) == blocks[..p] + Parse(g, next, p, fence)
  {
    hide Parse;
    var blocks := Parse(g, prior, 0, None);
    ParseBlocks(g, prior, 0, None, p);
    if p > 0 {
      ParseBlocks(g, prior, 0, None, p - 1);
      assert Undisturbed(g, blocks[p - 1], next[p].raw);
    }
    Resume(g, prior, next, p);
  }

  /**
   Appending agrees with reading the whole text again exactly when the tail is not `Misread`.
   `prior` and `next` share every line above `p`, the last line of `prior`.
   */
  lemma {:induction false} AppendExact(g: Grammar, prior: seq<Line>, next: seq<Line>, p: nat)
    requires CloseHasNoPipe(g)
    requires DistinctIds(prior) && |prior| == p + 1 && p < |next|
    requires forall i :: 0 <= i < p ==> prior[i] == next[i]
    ensures var blocks := Parse(g, prior, 0, None);
            && AppendPlan(g, prior, blocks, next, p).restart <= p
            && (Appended(g, prior, blocks, next, p) == Parse(g, next, 0, None) <==> !Misread(g, blocks, next, p))
  {
    hide Parse;
    var blocks := Parse(g, prior, 0, None);
    if TailTable(blocks, p, next[p].raw).Some? {
      AppendInTable(g, prior, next, p);
    } else {
      var plan := AppendPlan(g, prior, blocks, next, p);
      if p > 0 {
        ParseBlocks(g, prior, 0, None, p - 1);
      }
      if plan.restart == p {
        AppendAtTail(g, prior, next, p);
      } else if TableOf(blocks[p - 1]).None? {
        StepBackIsClean(g, prior, next, p);
        Resume(g, prior, next, p - 1);
      } else {
        assert Misread(g, blocks, next, p);
        AppendAtTail(g, prior, next, p);
        StepBackMisreads(g, prior, next, p);
        assert Appended(g, prior, blocks, next, p)[p - 1] == Parse(g, next, p - 1, None)[0];
        assert Parse(g, next, 0, None)[p - 1] == blocks[p - 1];
      }
    }
  }

  lemma {:induction false} StepBackIsClean(g: Grammar, prior: seq<Line>, next: seq<Line>, p: nat)
    requires CloseHasNoPipe(g)
    requires 0 < p < |prior| && p < |next| && prior[p - 1] == next[p - 1]
    requires HasPipe(next[p - 1].raw)
    requires var above := Parse(g, prior, 0, None)[p - 1]; TableOf(above).None? && FenceAfter(above).None?
    ensures Clean(Parse(g, prior, 0, None), p - 1)
  {
    hide Parse;
    var blocks := Parse(g, prior, 0, None);
    ParseBlocks(g, prior, 0, None, p - 1);
    if GroupOf(blocks[p - 1]).Some? {
      ClosingLine(g, prior, 0, None, p - 1);
      assert false;
    }
    var s := GroupStart(g, prior, p - 1);
  }

  /** Closing-fence blocks come only from closing-fence lines. */
  lemma {:induction false} ClosingLine(g: Grammar, lines: seq<Line>, from: nat, fence: Option<Fence>, i: nat)
    requires from <= i < |lines|
    requires var block := Parse(g, lines, from, fence)[i - from]; block.Fixed? && block.fixedKind == FenceClose
    ensures g.close(lines[i].raw).Some?
    decreases |lines| - from
  {
    hide Step;
    var turn := Step(g, lines, from, fence);
    if i >= turn.next {
      ClosingLine(g, lines, turn.next, turn.fence, i);
    } else {
      ClosingTurn(g, lines, from, fence, i);
    }
  }

  lemma {:induction false} ClosingTurn(g: Grammar, lines: seq<Line>, from: nat, fence: Option<Fence>, i: nat)
    requires from <= i < |lines| && i < Step(g, lines, from, fence).next
    requires var block := Step(g, lines, from, fence).blocks[i - from]; block.Fixed? && block.fixedKind == FenceClose
    ensures g.close(lines[i].raw).Some?
  {
    hide TableEnd, HasPipe;
  }

  lemma {:induction false} StepBackMisreads(g: Grammar, prior: seq<Line>, next: seq<Line>, p: nat)
    requires |prior| == p + 1 && p < |next|
    requires Misread(g, Parse(g, prior, 0, None), next, p)
    ensures Parse(g, next, p - 1, None)[0] != Parse(g, prior, 0, None)[p - 1]
  {
    hide Step;
    var blocks := Parse(g, prior, 0, None);
    ParseBlocks(g, prior, 0, None, p - 1);
    assert !IsHead(blocks[p - 1]);
    StepShape(g, next, p - 1, None);
  }

  /** Where a replacement text resumes; `p` leading lines are unchanged. Never inside a fence. */
  function EditRestart(prior: seq<Line>, blocks: seq<Block>, p: nat): (restart: nat)
    requires |blocks| == |prior| && p <= |prior|
    ensures restart <= if p == 0 then 0 else p - 1
  {
    var base := if p == 0 then 0 else p - 1;
    var first := if p < |prior| then Earlier(prior, GroupOf(blocks[p]), base) else base;
    if p > 0 then Earlier(prior, GroupOf(blocks[p - 1]), first) else first
  }

  function Earlier(prior: seq<Line>, group: Option<nat>, restart: nat): (r: nat)
    ensures r <= restart
  {
    match group
    case None => restart
    case Some(id) =>
      match IndexOf(prior, id)
      case None => restart
      case Some(index) => if index < restart then index else restart
  }

  /** A replacement text always restarts where the reading of the whole text would stand. */
  lemma {:induction false} EditExact(g: Grammar, prior: seq<Line>, next: seq<Line>, p: nat)
    requires DistinctIds(prior) && p <= |prior| && p <= |next|
    requires forall i :: 0 <= i < p ==> prior[i] == next[i]
    ensures var blocks := Parse(g, prior, 0, None);
            var r := EditRestart(prior, blocks, p);
            blocks[..r] + Parse(g, next, r, None) == Parse(g, next, 0, None)
  {
    hide Parse;
    var blocks := Parse(g, prior, 0, None);
    if p > 0 {
      var s := GroupStart(g, prior, p - 1);
      IndexOfDistinct(prior, s);
      if p < |prior| {
        var s' := GroupStart(g, prior, p);
        IndexOfDistinct(prior, s');
      }
      var r := EditRestart(prior, blocks, p);
      assert Clean(blocks, r);
      Resume(g, prior, next, r);
    }
  }

  /** The same line in another document: another identity, a line that never grew. */
  function Renamed(line: Line, f: nat -> nat): Line {
    Line(f(line.id), 0, line.raw)
  }

  function RenamedLines(lines: seq<Line>, f: nat -> nat): (renamed: seq<Line>)
    ensures |renamed| == |lines|
    ensures forall i :: 0 <= i < |lines| ==> renamed[i] == Renamed(lines[i], f)
  {
    seq(|lines|, i requires 0 <= i < |lines| => Renamed(lines[i], f))
  }

  function RenamedId(id: Option<nat>, f: nat -> nat): Option<nat> {
    match id case None => None case Some(n) => Some(f(n))
  }

  function RenamedFence(fence: Option<Fence>, f: nat -> nat): Option<Fence> {
    match fence case None => None case Some(open) => Some(open.(lineId := f(open.lineId)))
  }

  function RenamedContext(context: TableContext, f: nat -> nat): TableContext {
    context.(key := seq(|context.key|, i requires 0 <= i < |context.key| => (f(context.key[i].0), 0)))
  }

  function RenamedBlock(block: Block, f: nat -> nat): Block {
    match block
    case Plain(line) => Plain(f(line))
    case Fixed(line, kind, raw, group, table, open) =>
      Fixed(f(line), kind, raw, RenamedId(group, f),
            match table case None => None case Some(context) => Some(RenamedContext(context, f)), RenamedFence(open, f))
    case Wrapped(line, raw, shape, wordAware, group, fence) =>
      Wrapped(f(line), raw, shape, wordAware, RenamedId(group, f), RenamedFence(fence, f))
    case TableRow(line, context, rowIndex, group) =>
      TableRow(f(line), RenamedContext(context, f), rowIndex, RenamedId(group, f))
  }

  function RenamedBlocks(blocks: seq<Block>, f: nat -> nat): (renamed: seq<Block>)
    ensures |renamed| == |blocks|
    ensures forall i :: 0 <= i < |blocks| ==> renamed[i] == RenamedBlock(blocks[i], f)
  {
    seq(|blocks|, i requires 0 <= i < |blocks| => RenamedBlock(blocks[i], f))
  }

  /** Copying a table's lines under new identities copies its blocks. */
  lemma {:induction false} TableRenames(group: seq<Line>, group': seq<Line>, f: nat -> nat)
    requires |group'| == |group| >= 2
    requires forall i :: 0 <= i < |group| ==> group'[i] == Renamed(group[i], f)
    ensures TableBlocks(group', ContextOf(group')) == RenamedBlocks(TableBlocks(group, ContextOf(group)), f)
  {
    assert TextsOf(group') == TextsOf(group);
    assert ContextOf(group') == RenamedContext(ContextOf(group), f);
    hide ContextOf, RenamedContext;
    var blocks, blocks' := TableBlocks(group, ContextOf(group)), TableBlocks(group', ContextOf(group'));
    forall i | 0 <= i < |group| ensures blocks'[i] == RenamedBlock(blocks[i], f) {
      assert group'[0] == Renamed(group[0], f) && group'[i] == Renamed(group[i], f);
    }
  }

  lemma {:induction false} TableTurnRenames(g: Grammar, lines: seq<Line>, f: nat -> nat, index: nat)
    requires index < |lines| && g.fence(lines[index].raw).None? && OpensTable(g, lines, index)
    ensures var turn := Step(g, lines, index, None);
            Step(g, RenamedLines(lines, f), index, None) == Turn(RenamedBlocks(turn.blocks, f), turn.next, None)
  {
    hide RenamedBlock, TableBlock, ContextOf;
    var renamed := RenamedLines(lines, f);
    var stop := TableEnd(lines, index + 2);
    TableEndUnique(renamed, index + 2, stop);
    TableRenames(lines[index..stop], renamed[index..stop], f);
  }

  lemma {:induction false} StepRenames(g: Grammar, lines: seq<Line>, f: nat -> nat, index: nat, fence: Option<Fence>)
    requires index < |lines|
    ensures var turn := Step(g, lines, index, fence);
            Step(g, RenamedLines(lines, f), index, RenamedFence(fence, f))
              == Turn(RenamedBlocks(turn.blocks, f), turn.next, RenamedFence(turn.fence, f))
  {
    hide TableBlocks, TableEnd, HasPipe;
    if fence.None? && g.fence(lines[index].raw).None? && OpensTable(g, lines, index) {
      TableTurnRenames(g, lines, f, index);
    } else {
      var turn := Step(g, lines, index, fence);
      assert RenamedBlocks(turn.blocks, f) == [RenamedBlock(turn.blocks[0], f)];
    }
  }

  /**
   Reading never compares identities, so a document built afresh on the same text has the same
   blocks up to the identities of its lines.
   */
  lemma {:induction false} ParseRenames(g: Grammar, lines: seq<Line>, f: nat -> nat, index: nat, fence: Option<Fence>)
    requires index <= |lines|
    ensures Parse(g, RenamedLines(lines, f), index, RenamedFence(fence, f))
              == RenamedBlocks(Parse(g, lines, index, fence), f)
    decreases |lines| - index
  {
    hide Step, RenamedBlock, RenamedFence;
    if index < |lines| {
      var turn := Step(g, lines, index, fence);
      StepRenames(g, lines, f, index, fence);
      ParseRenames(g, lines, f, turn.next, turn.fence);
      assert RenamedBlocks(turn.blocks + Parse(g, lines, turn.next, turn.fence), f)
          == RenamedBlocks(turn.blocks, f) + RenamedBlocks(Parse(g, lines, turn.next, turn.fence), f);
    }
  }

  /** Patterns that know tables and nothing else. */
  function TablesOnly(): Grammar {
    Grammar(_ => None, _ => None, raw => raw == "-|-" || raw == "---", raw => FlowShape(0, |raw|, "", "", true))
  }

  /** The turns the parser takes over that table, with each of the two last lines. */
  lemma {:induction false} MisreadTurns()
    ensures var g := TablesOnly();
            var above := [Line(1, 0, "a|b"), Line(2, 0, "-|-"), Line(3, 0, "c|d")];
            var prior, next := above + [Line(4, 0, "")], above + [Line(5, 0, "---")];
            && Step(g, prior, 0, None).next == 3 && Step(g, next, 0, None).next == 3
            && Step(g, next, 2, None).next == 4 && Step(g, prior, 3, None).next == 4
            && HasPipe("c|d") && !HasPipe("---")
  {
    var g := TablesOnly();
    var above := [Line(1, 0, "a|b"), Line(2, 0, "-|-"), Line(3, 0, "c|d")];
    var prior, next := above + [Line(4, 0, "")], above + [Line(5, 0, "---")];
    assert "a|b"[1] == '|' && "c|d"[1] == '|' && !IsSpace("c|d"[1]);
    assert !HasPipe("") && !HasPipe("---");
    TableEndUnique(prior, 2, 3);
    TableEndUnique(next, 2, 3);
    TableEndUnique(next, 4, 4);
  }

  /**
   A table, then `---` typed under its last row: the shortcut turns the row `c|d` into the header of
   a second table, where reading the text at once keeps it as data.
   */
  lemma {:induction false} MisreadExample()
    ensures var g := TablesOnly();
            var above := [Line(1, 0, "a|b"), Line(2, 0, "-|-"), Line(3, 0, "c|d")];
            var prior, next := above + [Line(4, 0, "")], above + [Line(5, 0, "---")];
            var blocks := Parse(g, prior, 0, None);
            && Misread(g, blocks, next, 3)
            && AppendPlan(g, prior, blocks, next, 3).restart == 2
            && Appended(g, prior, blocks, next, 3)[2].rowIndex == 0
            && Parse(g, next, 0, None)[2].rowIndex == 2
  {
    var g := TablesOnly();
    var above := [Line(1, 0, "a|b"), Line(2, 0, "-|-"), Line(3, 0, "c|d")];
    var prior, next := above + [Line(4, 0, "")], above + [Line(5, 0, "---")];
    MisreadTurns();
    hide HasPipe, TableEnd;
  }
}
