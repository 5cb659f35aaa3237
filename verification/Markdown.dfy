/**
 Block recognition for Markdown bodies and the theorems that let an edited document
 restart it in the middle.

 The patterns themselves are parameters (`Grammar`): the parser is proved for every choice of them.
 */
module Markdown {
  import opened Basics

  /** A physical line. `id` is never reused; `version` counts in-place growth of the same line. */
  datatype Line = Line(id: nat, version: nat, raw: string)

  datatype FenceMark = FenceMark(indent: string, marker: string)

  /** What a line alone is, once fences and tables have been ruled out. */
  datatype Shape =
    | RuleShape
    | BlankShape
    | FlowShape(sourceStart: nat, sourceEnd: nat, firstPrefix: string, continuationPrefix: string, inline: bool)

  /** Recognition of single lines: opening fence, closing fence, table separator row, and the rest. */
  datatype Grammar = Grammar(
    fence: string -> Option<FenceMark>,
    close: string -> Option<FenceMark>,
    separator: string -> bool,
    shape: string -> Shape)

  /** A closing fence is indentation, marker characters and white space, so it holds no cell divider. */
  ghost predicate CloseHasNoPipe(g: Grammar) {
    forall raw: string :: g.close(raw).Some? ==> !HasPipe(raw)
  }

  datatype Fence = Fence(lineId: nat, indent: string, marker: string)

  /** The lines of one table; its cell ranges and alignments are functions of `texts`. */
  datatype TableContext = TableContext(key: seq<(nat, nat)>, texts: seq<string>)

  datatype FixedKind = BlankLine | Rule | FenceOpen | FenceClose | TableSeparator

  datatype Block =
    | Plain(line: nat)
    | Fixed(line: nat, fixedKind: FixedKind, raw: string, groupStart: Option<nat>,
            table: Option<TableContext>, openFence: Option<Fence>)
    | Wrapped(line: nat, raw: string, shape: Shape, wordAware: bool, groupStart: Option<nat>, fence: Option<Fence>)
    | TableRow(line: nat, context: TableContext, rowIndex: nat, groupStart: Option<nat>)

  predicate HasPipe(raw: string) {
    '|' in raw
  }

  /** Continues a table: a cell divider on a line that is not blank. */
  predicate IsDataRow(raw: string) {
    HasPipe(raw) && !AllSpace(raw)
  }

  /** A closing fence ends only a fence of its own character that is no longer than itself. */
  predicate Closes(g: Grammar, fence: Fence, raw: string) {
    match g.close(raw)
    case None => false
    case Some(mark) =>
      && |mark.marker| >= |fence.marker|
      && (|mark.marker| > 0 && |fence.marker| > 0 && mark.marker[0] == fence.marker[0])
  }

  predicate OpensTable(g: Grammar, lines: seq<Line>, index: nat)
    requires index < |lines|
  {
    HasPipe(lines[index].raw) && index + 1 < |lines| && g.separator(lines[index + 1].raw)
  }

  /** First line at or after `index` that is not a data row. */
  function TableEnd(lines: seq<Line>, index: nat): (stop: nat)
    requires index <= |lines|
    ensures index <= stop <= |lines|
    ensures forall i :: index <= i < stop ==> IsDataRow(lines[i].raw)
    ensures stop < |lines| ==> !IsDataRow(lines[stop].raw)
    decreases |lines| - index
  {
    if index < |lines| && IsDataRow(lines[index].raw) then TableEnd(lines, index + 1) else index
  }

  lemma {:induction false} TableEndUnique(lines: seq<Line>, index: nat, stop: nat)
    requires index <= stop <= |lines|
    requires forall i :: index <= i < stop ==> IsDataRow(lines[i].raw)
    requires stop < |lines| ==> !IsDataRow(lines[stop].raw)
    ensures TableEnd(lines, index) == stop
    decreases |lines| - index
  {
  }

  function KeyOf(group: seq<Line>): (key: seq<(nat, nat)>)
    ensures |key| == |group|
    ensures forall i :: 0 <= i < |group| ==> key[i] == (group[i].id, group[i].version)
  {
    seq(|group|, i requires 0 <= i < |group| => (group[i].id, group[i].version))
  }

  function TextsOf(group: seq<Line>): (texts: seq<string>)
    ensures |texts| == |group|
    ensures forall i :: 0 <= i < |group| ==> texts[i] == group[i].raw
  {
    seq(|group|, i requires 0 <= i < |group| => group[i].raw)
  }

  function ContextOf(group: seq<Line>): TableContext {
    TableContext(KeyOf(group), TextsOf(group))
  }

  function TableBlock(group: seq<Line>, context: TableContext, row: nat): Block
    requires row < |group|
  {
    if row == 1 then Fixed(group[1].id, TableSeparator, group[1].raw, Some(group[0].id), Some(context), None)
    else TableRow(group[row].id, context, row, Some(group[0].id))
  }

  /** Header, separator and data rows: one block for each line of the group. */
  function TableBlocks(group: seq<Line>, context: TableContext): (blocks: seq<Block>)
    ensures |blocks| == |group|
    ensures forall i :: 0 <= i < |group| ==> blocks[i] == TableBlock(group, context, i)
  {
    seq(|group|, i requires 0 <= i < |group| => TableBlock(group, context, i))
  }

  function StandaloneBlock(g: Grammar, line: Line): Block {
    match g.shape(line.raw)
    case RuleShape => Fixed(line.id, Rule, line.raw, None, None, None)
    case BlankShape => Fixed(line.id, BlankLine, line.raw, None, None, None)
    case FlowShape(_, _, _, _, _) => Wrapped(line.id, line.raw, g.shape(line.raw), true, None, None)
  }

  /** One turn of the parser: the blocks it emits, the next line it looks at and the fence then open. */
  datatype Turn = Turn(blocks: seq<Block>, next: nat, fence: Option<Fence>)

  function Step(g: Grammar, lines: seq<Line>, index: nat, fence: Option<Fence>): (turn: Turn)
    requires index < |lines|
    ensures index < turn.next <= |lines|
    ensures |turn.blocks| == turn.next - index
  {
    var line := lines[index];
    if fence.Some? then
      if Closes(g, fence.value, line.raw) then
        Turn([Fixed(line.id, FenceClose, line.raw, Some(fence.value.lineId), None, None)], index + 1, None)
      else
        Turn([Wrapped(line.id, line.raw, FlowShape(0, |line.raw|, "", "", false), false,
                      Some(fence.value.lineId), fence)], index + 1, fence)
    else if g.fence(line.raw).Some? then
      var mark := g.fence(line.raw).value;
      var begun := Fence(line.id, mark.indent, mark.marker);
      Turn([Fixed(line.id, FenceOpen, line.raw, Some(line.id), None, Some(begun))], index + 1, Some(begun))
    else if OpensTable(g, lines, index) then
      var stop := TableEnd(lines, index + 2);
      var group := lines[index..stop];
      Turn(TableBlocks(group, ContextOf(group)), stop, None)
    else
      Turn([StandaloneBlock(g, line)], index + 1, None)
  }

  /** The reference: read the lines from `index` to the end. A fresh document is `Parse(g, lines, 0, None)`. */
  function Parse(g: Grammar, lines: seq<Line>, index: nat, fence: Option<Fence>): (blocks: seq<Block>)
    requires index <= |lines|
    ensures |blocks| == |lines| - index
    decreases |lines| - index
  {
    if index == |lines| then []
    else
      var turn := Step(g, lines, index, fence);
      turn.blocks + Parse(g, lines, turn.next, turn.fence)
  }

  /** The blocks read before the parser stands at line `to`; None when a table group straddles it. */
  function Walk(g: Grammar, lines: seq<Line>, from: nat, fence: Option<Fence>,
                to: nat): (w: Option<(seq<Block>, Option<Fence>)>)
    requires to <= |lines|
    ensures w.Some? ==> from <= to && |w.value.0| == to - from
    decreases |lines| - from
  {
    if from == to then Some(([], fence))
    else if from > to then None
    else
      var turn := Step(g, lines, from, fence);
      match Walk(g, lines, turn.next, turn.fence, to)
      case None => None
      case Some(rest) => Some((turn.blocks + rest.0, rest.1))
  }

  /** The fence open after a block, read off the block. */
  function FenceAfter(block: Block): Option<Fence> {
    match block
    case Wrapped(_, _, _, _, _, fence) => fence
    case Fixed(_, kind, _, _, _, open) => if kind == FenceOpen then open else None
    case _ => None
  }

  function TableOf(block: Block): Option<TableContext> {
    match block
    case TableRow(_, context, _, _) => Some(context)
    case Fixed(_, _, _, _, table, _) => table
    case _ => None
  }

  function GroupOf(block: Block): Option<nat> {
    match block
    case Plain(_) => None
    case Fixed(_, _, _, group, _, _) => group
    case Wrapped(_, _, _, _, group, _) => group
    case TableRow(_, _, _, group) => group
  }

  /** The parser takes a turn at a block's line unless it is a later line of a table. */
  predicate IsHead(block: Block) {
    match block
    case TableRow(_, _, rowIndex, _) => rowIndex == 0
    case Fixed(_, _, _, _, table, _) => table.None?
    case _ => true
  }

  lemma {:induction false} WalkSplits(g: Grammar, lines: seq<Line>, from: nat, fence: Option<Fence>, to: nat)
    requires to <= |lines|
    requires Walk(g, lines, from, fence, to).Some?
    ensures var w := Walk(g, lines, from, fence, to).value;
            Parse(g, lines, from, fence) == w.0 + Parse(g, lines, to, w.1)
    decreases |lines| - from
  {
    hide Step;
    if from < to {
      var turn := Step(g, lines, from, fence);
      WalkSplits(g, lines, turn.next, turn.fence, to);
      var rest := Walk(g, lines, turn.next, turn.fence, to).value;
      assert (turn.blocks + rest.0) + Parse(g, lines, to, rest.1)
          == turn.blocks + (rest.0 + Parse(g, lines, to, rest.1));
    }
  }

  /** A turn starts with a head, has no other, and leaves open the fence its last block shows. */
  lemma {:induction false} StepShape(g: Grammar, lines: seq<Line>, index: nat, fence: Option<Fence>)
    requires index < |lines|
    ensures var turn := Step(g, lines, index, fence);
            && IsHead(turn.blocks[0])
            && (forall i :: 1 <= i < |turn.blocks| ==> !IsHead(turn.blocks[i]))
            && FenceAfter(turn.blocks[|turn.blocks| - 1]) == turn.fence
  {
  }

  /** Exactly the heads can be walked to, and the fence there is the one the previous block leaves open. */
  lemma {:induction false} WalkToHead(g: Grammar, lines: seq<Line>, from: nat, fence: Option<Fence>, to: nat)
    requires from <= to < |lines|
    ensures var blocks := Parse(g, lines, from, fence);
            var w := Walk(g, lines, from, fence, to);
            && (w.Some? <==> IsHead(blocks[to - from]))
            && (w.Some? ==> w.value.1 == if from == to then fence else FenceAfter(blocks[to - from - 1]))
    decreases |lines| - from
  {
    hide Step, IsHead, FenceAfter;
    var turn := Step(g, lines, from, fence);
    StepShape(g, lines, from, fence);
    if from < to {
      if turn.next <= to {
        WalkToHead(g, lines, turn.next, turn.fence, to);
      }
    }
  }

  /** What a changed line must not do to the block just above it. */
  predicate Undisturbed(g: Grammar, above: Block, raw: string) {
    match above
    case TableRow(_, _, _, _) => !IsDataRow(raw)
    case Fixed(_, kind, text, _, table, _) =>
      (table.Some? ==> !IsDataRow(raw))
      && ((kind == Rule || kind == BlankLine) && HasPipe(text) ==> !g.separator(raw))
    case Wrapped(_, text, _, _, _, fence) => fence.None? && HasPipe(text) ==> !g.separator(raw)
    case Plain(_) => true
  }

  /** A turn that stays above line `to` reads that line only to find that the group has ended. */
  lemma {:induction false} StepLocal(g: Grammar, lines: seq<Line>, lines': seq<Line>, index: nat, fence: Option<Fence>,
                                     to: nat)
    requires index < to < |lines| && to < |lines'|
    requires forall i :: 0 <= i < to ==> lines[i] == lines'[i]
    requires Step(g, lines, index, fence).next <= to
    requires Step(g, lines, index, fence).next == to ==>
               Undisturbed(g, Step(g, lines, index, fence).blocks[to - index - 1], lines'[to].raw)
    ensures Step(g, lines', index, fence) == Step(g, lines, index, fence)
  {
    var turn := Step(g, lines, index, fence);
    if fence.None? && g.fence(lines[index].raw).None? && OpensTable(g, lines, index) {
      TableEndUnique(lines', index + 2, turn.next);
      assert lines[index..turn.next] == lines'[index..turn.next];
    }
  }

  /** Locality: what is read before line `to` depends on line `to` only through `Undisturbed`. */
  lemma {:induction false} WalkLocal(g: Grammar, lines: seq<Line>, lines': seq<Line>, from: nat,
                                     fence: Option<Fence>, to: nat)
    requires to < |lines| && to < |lines'|
    requires forall i :: 0 <= i < to ==> lines[i] == lines'[i]
    requires Walk(g, lines, from, fence, to).Some?
    requires from < to ==> Undisturbed(g, Walk(g, lines, from, fence, to).value.0[to - from - 1], lines'[to].raw)
    ensures Walk(g, lines', from, fence, to) == Walk(g, lines, from, fence, to)
    decreases |lines| - from
  {
    hide Step, Undisturbed;
    if from < to {
      var turn := Step(g, lines, from, fence);
      var rest := Walk(g, lines, turn.next, turn.fence, to).value;
      assert Walk(g, lines, from, fence, to).value.0 == turn.blocks + rest.0;
      StepLocal(g, lines, lines', from, fence, to);
      WalkLocal(g, lines, lines', turn.next, turn.fence, to);
    }
  }
}
