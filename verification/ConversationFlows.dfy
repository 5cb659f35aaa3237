/**
 What goes to the terminal's scrollback for good, and what stays live while its text still grows.

 `ConversationFlow.Drain` and `SealVisibleTail` update receipts in place; `Drained` and `Sealed` are
 their specification. `log` and `tail` record the source ranges of printed and of live body rows.
 */
module ConversationFlows {
  import opened Basics
  import opened SourceText
  import opened Wrapping
  import opened WrapRows
  import opened WrapLayouts
  import opened Navigation
  import opened Conversation
  import opened FlowRows

  datatype Kind = UserEntry | AssistantEntry | ThinkingEntry | ToolEntry | OtherEntry

  datatype Entry = Entry(id: string, kind: Kind, title: string, position: Option<Position>, turn: Option<int>,
                         text: string, live: bool)
  {
    /** Entries whose text is shown under a label, and may still grow. */
    predicate IsBody() { kind == AssistantEntry || kind == ThinkingEntry }

    predicate IsMarkdown() { kind == AssistantEntry && title != "assistant note>" }
  }

  /** How entries are shown: labels, records and Markdown bodies are given, plain bodies are laid out here. */
  datatype Look = Look(
    g: Segmenter, labelRows: (string, nat) -> nat, project: (Entry, nat) -> string,
    markdown: (string, string, nat) -> seq<FlowRow>, markdownSeek: (string, int, nat) -> Cursor)

  datatype Receipt = Receipt(position: Option<Position>, text: string, title: string, offset: int, base: nat,
                             cursor: Option<Cursor>, width: nat, labelPrinted: bool, complete: bool)

  datatype Piece = Piece(id: string, span: Span)

  datatype Pending = Pending(entry: Entry, rows: seq<FlowRow>)

  datatype Flow = Flow(printed: map<string, Receipt>, frontier: Option<Position>, liveEntry: Option<Entry>,
                       log: seq<Piece>, tail: seq<Piece>)

  // ---------------------------------------------------------------- rows of an entry

  function SliceFrom(text: string, base: nat): string {
    if base <= |text| then text[base..] else ""
  }

  function LabelRows(look: Look, entry: Entry, width: nat): seq<FlowRow> {
    if entry.IsBody() then seq(look.labelRows(entry.title, width), k requires 0 <= k => LabelRow(entry.id, k)) else []
  }

  /** `entryRows`: separator, label and body, the body being the text from `base` on. */
  function EntryRows(look: Look, entry: Entry, base: nat, width: nat, separated: bool): seq<FlowRow>
    requires Segments(look.g)
  {
    (if separated then [SeparatorRow] else []) + LabelRows(look, entry, width) + BodyRows(look, entry, base, width)
  }

  function BodyRows(look: Look, entry: Entry, base: nat, width: nat): seq<FlowRow>
    requires Segments(look.g)
  {
    if entry.IsMarkdown() then look.markdown(entry.id, SliceFrom(entry.text, base), width)
    else PlainRows(look.g, entry.id, ShownText(look, entry, base), width)
  }

  function ShownText(look: Look, entry: Entry, base: nat): string {
    if entry.IsBody() then SliceFrom(entry.text, base) else look.project(entry, base)
  }

  /** The line an offset lies on. */
  function LineOf(spans: seq<Span>, offset: int, from: nat): (line: nat)
    requires from < |spans|
    ensures from <= line < |spans|
    decreases |spans| - from
  {
    if offset <= spans[from].end || from + 1 == |spans| then from else LineOf(spans, offset, from + 1)
  }

  /** `seek` in a plain body all of whose rows are measured. */
  function SeekPlain(g: Segmenter, text: string, offset: int, width: nat): Cursor
    requires Segments(g)
  {
    var clamped := if offset < 0 then 0 else if offset > |text| then |text| else offset;
    var spans := Spans(text, 0);
    var line := LineOf(spans, clamped, 0);
    SpansChained(text, 0);
    assert LineAt(text, spans, line);
    var length := spans[line].end - spans[line].start;
    var relative := clamped - spans[line].start;
    Cursor(line, FindRow(LineWrap(g, text, spans[line], width), 0,
                         if relative < 0 then 0 else if relative > length then length else relative))
  }

  function SeekBody(look: Look, entry: Entry, base: nat, offset: int, width: nat): Cursor
    requires Segments(look.g)
  {
    if entry.IsMarkdown() then look.markdownSeek(SliceFrom(entry.text, base), offset, width)
    else SeekPlain(look.g, ShownText(look, entry, base), offset, width)
  }

  // ---------------------------------------------------------------- forgetting removed entries

  function Later(frontier: Option<Position>, position: Option<Position>): Option<Position> {
    if position.Some? && (frontier.None? || ComparePositions(position.value,
                                                             frontier.value) > 0) then position else frontier
  }

  lemma {:induction false} LaterCommutes(frontier: Option<Position>, a: Option<Position>, b: Option<Position>)
    ensures Later(Later(frontier, a), b) == Later(Later(frontier, b), a)
  {
  }

  ghost function FrontierAfter(frontier: Option<Position>, printed: map<string, Receipt>,
                               gone: set<string>): Option<Position>
    requires gone <= printed.Keys
    decreases |gone|
  {
    if gone == {} then frontier
    else
      var id :| id in gone;
      FrontierAfter(Later(frontier, printed[id].position), printed, gone - {id})
  }

  /** The order of removal does not matter. */
  lemma {:induction false} FrontierAny(frontier: Option<Position>, printed: map<string, Receipt>, gone: set<string>,
                                       id: string)
    requires gone <= printed.Keys && id in gone
    ensures FrontierAfter(frontier, printed, gone) == FrontierAfter(Later(frontier, printed[id].position), printed,
                                                                    gone - {id})
    decreases |gone|
  {
    hide Later;
    var first :| first in gone && FrontierAfter(frontier, printed, gone)
                    == FrontierAfter(Later(frontier, printed[first].position), printed, gone - {first});
    if first != id {
      FrontierAny(Later(frontier, printed[first].position), printed, gone - {first}, id);
      FrontierAny(Later(frontier, printed[id].position), printed, gone - {id}, first);
      LaterCommutes(frontier, printed[first].position, printed[id].position);
      assert gone - {first} - {id} == gone - {id} - {first};
    }
  }

  /** The frontier never falls back, and it reaches every removed position. */
  lemma {:induction false} FrontierReaches(frontier: Option<Position>, printed: map<string, Receipt>, gone: set<string>,
                                           position: Position)
    requires gone <= printed.Keys
    requires (frontier.Some? && ComparePositions(position, frontier.value) <= 0)
             || (exists id :: id in gone && printed[id].position == Some(position))
    ensures var after := FrontierAfter(frontier, printed, gone);
            after.Some? && ComparePositions(position, after.value) <= 0
    decreases |gone|
  {
    if gone != {} {
      var id :| id in gone && FrontierAfter(frontier, printed, gone)
                   == FrontierAfter(Later(frontier, printed[id].position), printed, gone - {id});
      FrontierReaches(Later(frontier, printed[id].position), printed, gone - {id}, position);
    }
  }

  lemma {:induction false} OneFewer(gone: set<string>, ids: set<string>, id: string)
    ensures gone * (ids - {id}) == gone * ids - {id}
    ensures id !in gone ==> gone * (ids - {id}) == gone * ids
  {
  }

  lemma {:induction false} NothingGone(frontier: Option<Position>, printed: map<string, Receipt>)
    ensures FrontierAfter(frontier, printed, {}) == frontier
  {
  }

  function IdsOf(entries: seq<Entry>): set<string> {
    set i | 0 <= i < |entries| :: entries[i].id
  }

  ghost function Gone(flow: Flow, entries: seq<Entry>): set<string> {
    set id | id in flow.printed && id !in IdsOf(entries) && !(flow.liveEntry.Some? && id == flow.liveEntry.value.id)
  }

  // ---------------------------------------------------------------- one entry

  function NewReceipt(entry: Entry, width: nat): Receipt {
    Receipt(entry.position, entry.text, entry.title, 0, 0, None, width, false, false)
  }

  /** The receipt to print under; None when the entry is passed over. */
  function Opening(frontier: Option<Position>, receipt: Option<Receipt>, entry: Entry, width: nat): Option<Receipt> {
    if receipt.None? then
      if entry.position.Some? && frontier.Some? && ComparePositions(entry.position.value, frontier.value) <= 0 then None
      else Some(NewReceipt(entry, width))
    else if entry.kind == ToolEntry then None
    else
      var r := receipt.value;
      if r.complete && r.text == entry.text && (entry.IsBody() || r.title == entry.title) then None
      else if r.complete && r.text != entry.text then
        if entry.IsBody() then Some(r.(base := |r.text|, offset := |r.text|, cursor := None, complete := false))
        else Some(NewReceipt(entry, width))
      else Some(r)
  }

  /** Where the rows not yet printed begin. */
  function StartAt(look: Look, receipt: Receipt, entry: Entry, rows: seq<FlowRow>, width: nat,
                   labelChanged: bool): (start: nat)
    requires Segments(look.g)
    ensures start <= |rows|
  {
    if !receipt.labelPrinted then 0
    else FindCursor(rows, if receipt.width == width && !labelChanged && receipt.cursor.Some? then receipt.cursor.value
                          else SeekBody(look, entry, receipt.base, receipt.offset - receipt.base, width))
  }

  function Prepared(look: Look, frontier: Option<Position>, receipt: Option<Receipt>, entry: Entry, width: nat,
                    separated: bool): (prepared: Option<(Receipt, seq<FlowRow>)>)
    requires Segments(look.g)
  {
    match Opening(frontier, receipt, entry, width)
    case None => None
    case Some(r) =>
      var rows := EntryRows(look, entry, r.base, width, separated);
      var labelChanged := receipt.Some? && receipt.value.title != entry.title;
      var start := StartAt(look, r, entry, rows, width, labelChanged);
      Some((r.(title := entry.title, text := entry.text, width := width),
            if r.complete && r.text == entry.text then [] else rows[start..]))
  }

  /** How many rows of a growing entry are printed: what does not fit, up to the end of a block. */
  function PrintCount(rows: seq<FlowRow>, mutable: bool, capacity: nat): (count: nat)
    ensures count <= |rows|
    ensures !mutable ==> count == |rows|
    ensures |rows| - count <= capacity
  {
    if !mutable then |rows|
    else
      var count := if |rows| > capacity then |rows| - capacity else 0;
      if count > 0 && rows[count - 1].BodyRow? then SealBlock(rows, count, rows[count - 1].cursor.block) else count
  }

  function FirstBody(rows: seq<FlowRow>): (at: nat)
    ensures at <= |rows| && (at < |rows| ==> rows[at].BodyRow?)
  {
    if rows == [] || rows[0].BodyRow? then 0 else 1 + FirstBody(rows[1..])
  }

  function Printed(receipt: Receipt, entry: Entry, rows: seq<FlowRow>, count: nat, mutable: bool): Receipt
    requires count <= |rows|
  {
    var remaining := rows[count..];
    var first := FirstBody(remaining);
    var complete := !mutable || remaining == [];
    if count == 0 then receipt.(complete := complete)
    else receipt.(
      labelPrinted := true,
      cursor := if first < |remaining| then Some(remaining[first].cursor) else None,
      offset := if first < |remaining| then receipt.base + remaining[first].span.start else |entry.text|,
      complete := complete)
  }

  function Tagged(id: string, ranges: seq<Span>): (pieces: seq<Piece>)
    ensures |pieces| == |ranges|
  {
    seq(|ranges|, i requires 0 <= i < |ranges| => Piece(id, ranges[i]))
  }

  // ---------------------------------------------------------------- a whole drain

  /** What the loop over entries carries for separators. */
  datatype Walk = Walk(seenUser: bool, awaiting: set<int>, previous: Option<Entry>)

  predicate IsUser(entry: Entry) { entry.kind == UserEntry && entry.title == "user>" }

  predicate IsOutput(walk: Walk, entry: Entry) {
    && entry.turn.Some? && entry.turn.value in walk.awaiting
    && (entry.kind == ToolEntry || entry.kind == AssistantEntry || entry.kind == ThinkingEntry)
  }

  predicate IsSeparated(walk: Walk, entry: Entry) {
    || (IsUser(entry) && walk.seenUser)
    || IsOutput(walk, entry)
    || (walk.previous.Some? && (entry.kind == ThinkingEntry || walk.previous.value.kind == ThinkingEntry))
  }

  function Walked(walk: Walk, entry: Entry): Walk {
    var awaiting := if IsUser(entry) && entry.turn.Some? then walk.awaiting + {entry.turn.value} else walk.awaiting;
    Walk(walk.seenUser || IsUser(entry), if IsOutput(walk, entry) then awaiting - {entry.turn.value} else awaiting,
         Some(entry))
  }

  function ReceiptOf(printed: map<string, Receipt>, id: string): Option<Receipt> {
    if id in printed then Some(printed[id]) else None
  }

  function AllPrepared(look: Look, frontier: Option<Position>, entries: seq<Entry>, i: nat, walk: Walk, width: nat,
                       printed: map<string, Receipt>): (map<string, Receipt>, seq<Pending>)
    requires Segments(look.g) && i <= |entries|
    decreases |entries| - i
  {
    if i == |entries| then (printed, [])
    else
      var entry := entries[i];
      match Prepared(look, frontier, ReceiptOf(printed, entry.id), entry, width, IsSeparated(walk, entry))
      case None => AllPrepared(look, frontier, entries, i + 1, Walked(walk, entry), width, printed)
      case Some(pair) =>
        var rest := AllPrepared(look, frontier, entries, i + 1, Walked(walk, entry), width,
                                printed[entry.id := pair.0]);
        (rest.0, [Pending(entry, pair.1)] + rest.1)
  }

  datatype Output = Output(printed: map<string, Receipt>, committed: seq<FlowRow>, live: seq<FlowRow>,
                           liveEntry: Option<Entry>, log: seq<Piece>, tail: seq<Piece>)

  /** Only the last pending body of a running turn may stay live. */
  predicate Mutable(pending: seq<Pending>, i: nat, running: bool)
    requires i < |pending|
  {
    running && pending[i].entry.live && pending[i].entry.IsBody() && i == |pending| - 1
  }

  function OneCommitted(out: Output, p: Pending, mutable: bool, capacity: nat): Output
    requires p.entry.id in out.printed
  {
    var receipt := out.printed[p.entry.id];
    var count := PrintCount(p.rows, mutable, capacity);
    var remaining := p.rows[count..];
    Output(
      out.printed[p.entry.id := Printed(receipt, p.entry, p.rows, count, mutable)],
      out.committed + p.rows[..count],
      remaining,
      if remaining == [] then out.liveEntry else Some(p.entry),
      out.log + Tagged(p.entry.id, Ranges(p.rows[..count], receipt.base)),
      Tagged(p.entry.id, Ranges(remaining, receipt.base)))
  }

  ghost predicate AllReceipts(pending: seq<Pending>, printed: map<string, Receipt>) {
    forall i :: 0 <= i < |pending| ==> pending[i].entry.id in printed
  }

  function AllCommitted(out: Output, pending: seq<Pending>, i: nat, running: bool, capacity: nat): Output
    requires i <= |pending| && AllReceipts(pending, out.printed)
    decreases |pending| - i
  {
    if i == |pending| then out
    else AllCommitted(OneCommitted(out, pending[i], Mutable(pending, i, running), capacity), pending, i + 1, running,
                      capacity)
  }

  lemma {:induction false} CommitNext(out: Output, pending: seq<Pending>, i: nat, running: bool, capacity: nat)
    requires i < |pending| && AllReceipts(pending, out.printed)
    ensures var own := OneCommitted(out, pending[i], Mutable(pending, i, running), capacity);
            && AllReceipts(pending, own.printed)
            && AllCommitted(out, pending, i, running, capacity) == AllCommitted(own, pending, i + 1, running, capacity)
  {
  }

  lemma {:induction false} CommitNothing(out: Output, pending: seq<Pending>, running: bool, capacity: nat)
    requires AllReceipts(pending, out.printed)
    ensures AllCommitted(out, pending, |pending|, running, capacity) == out
  {
  }

  lemma {:induction false} PreparedReceipts(look: Look, frontier: Option<Position>, entries: seq<Entry>, i: nat,
                                            walk: Walk, width: nat, printed: map<string, Receipt>)
    requires Segments(look.g) && i <= |entries|
    ensures var (after, pending) := AllPrepared(look, frontier, entries, i, walk, width, printed);
            printed.Keys <= after.Keys && AllReceipts(pending, after)
    decreases |entries| - i
  {
    hide Prepared, IsSeparated, Walked, ReceiptOf;
    if i < |entries| {
      var entry := entries[i];
      match Prepared(look, frontier, ReceiptOf(printed, entry.id), entry, width, IsSeparated(walk, entry))
      case None => PreparedReceipts(look, frontier, entries, i + 1, Walked(walk, entry), width, printed);
      case Some(pair) =>
        PreparedReceipts(look, frontier, entries, i + 1, Walked(walk, entry), width, printed[entry.id := pair.0]);
    }
  }

  /** Receipts of removed entries are dropped, except that of the entry still shown live. */
  ghost function Forgotten(flow: Flow, entries: seq<Entry>): Flow {
    var gone := Gone(flow, entries);
    flow.(printed := flow.printed - gone, frontier := FrontierAfter(flow.frontier, flow.printed, gone))
  }

  function Start(): Walk { Walk(false, {}, None) }

  ghost function DrainOutput(look: Look, flow: Flow, entries: seq<Entry>, running: bool, width: nat,
                             capacity: nat): Output
    requires Segments(look.g)
  {
    var kept := Forgotten(flow, entries);
    var (printed, pending) := AllPrepared(look, kept.frontier, entries, 0, Start(), width, kept.printed);
    PreparedReceipts(look, kept.frontier, entries, 0, Start(), width, kept.printed);
    AllCommitted(Output(printed, [], [], None, flow.log, []), pending, 0, running, capacity)
  }

  ghost function Drained(look: Look, flow: Flow, entries: seq<Entry>, running: bool, width: nat, capacity: nat): Flow
    requires Segments(look.g)
  {
    var out := DrainOutput(look, flow, entries, running, width, capacity);
    Flow(out.printed, Forgotten(flow, entries).frontier, out.liveEntry, out.log, out.tail)
  }

  /** The live tail has moved into the scrollback without another write. */
  function Sealed(flow: Flow): Flow
    requires flow.liveEntry.Some? ==> flow.liveEntry.value.id in flow.printed
  {
    match flow.liveEntry
    case None => flow
    case Some(entry) =>
      flow.(printed := flow.printed[entry.id := flow.printed[entry.id].(complete := true, offset := |entry.text|,
                                                                        cursor := None, labelPrinted := true)],
            liveEntry := None, log := flow.log + flow.tail, tail := [])
  }

  // ---------------------------------------------------------------- the flow in place

  class ConversationFlow {
    var printed: map<string, Receipt>
    var frontier: Option<Position>
    var liveEntry: Option<Entry>
    ghost var log: seq<Piece>
    ghost var tail: seq<Piece>

    ghost function Value(): Flow
      reads this
    {
      Flow(printed, frontier, liveEntry, log, tail)
    }

    ghost predicate Valid()
      reads this
    {
      liveEntry.Some? ==> liveEntry.value.id in printed
    }

    constructor ()
      ensures Valid() && Value() == Flow(map[], None, None, [], [])
    {
      printed, frontier, liveEntry, log, tail := map[], None, None, [], [];
    }

    method SealVisibleTail()
      requires Valid()
      modifies this
      ensures Valid() && Value() == Sealed(old(Value()))
    {
      match liveEntry
      case None =>
      case Some(entry) =>
        var receipt := printed[entry.id];
        receipt := receipt.(complete := true, offset := |entry.text|, cursor := None, labelPrinted := true);
        printed := printed[entry.id := receipt];
        liveEntry := None;
        log, tail := log + tail, [];
    }

    method Forget(entries: seq<Entry>)
      modifies this`printed, this`frontier
      ensures Value() == Forgotten(old(Value()), entries)
    {
      hide Later, FrontierAfter, Gone, IdsOf, ConversationFlow.Removed;
      ghost var was := printed;
      ghost var gone := Gone(Value(), entries);
      var present := IdsOf(entries);
      var ids := printed.Keys;
      GoneRemoved(entries);
      assert gone * ids == gone;
      while ids != {}
        invariant ids <= was.Keys
        invariant forall id :: id in printed <==> id in was && (id in ids || id !in gone)
        invariant forall id :: id in printed ==> printed[id] == was[id]
        invariant FrontierAfter(frontier, was, gone * ids) == FrontierAfter(old(frontier), was, gone)
        decreases |ids|
      {
        var id :| id in ids;
        if Removed(present, id) {
          FrontierAny(frontier, was, gone * ids, id);
          Drop(id);
        }
        OneFewer(gone, ids, id);
        ids := ids - {id};
      }
      assert gone * {} == {};
      NothingGone(frontier, was);
      assert printed == was - gone;
    }

    /** A receipt is let go; the frontier keeps its position. */
    method Drop(id: string)
      requires id in printed
      modifies this`printed, this`frontier
      ensures frontier == Later(old(frontier), old(printed)[id].position)
      ensures printed.Keys == old(printed).Keys - {id}
      ensures forall other :: other in printed ==> printed[other] == old(printed)[other]
    {
      frontier := Later(frontier, printed[id].position);
      printed := printed - {id};
    }

    lemma {:induction false} GoneRemoved(entries: seq<Entry>)
      ensures forall id :: id in Gone(Value(), entries) <==> id in printed && Removed(IdsOf(entries), id)
    {
      hide IdsOf;
    }

    predicate Removed(present: set<string>, id: string)
      reads this`liveEntry
    {
      id !in present && !(liveEntry.Some? && id == liveEntry.value.id)
    }

    method Prepare(look: Look, entries: seq<Entry>, width: nat) returns (pending: seq<Pending>)
      requires Segments(look.g)
      modifies this`printed
      ensures (printed, pending) == AllPrepared(look, frontier, entries, 0, Start(), width, old(printed))
    {
      hide Prepared, IsSeparated, Walked, Segments;
      pending := [];
      var walk := Start();
      ghost var whole := AllPrepared(look, frontier, entries, 0, walk, width, printed);
      assert [] + whole.1 == whole.1;
      for i := 0 to |entries|
        invariant var rest := AllPrepared(look, frontier, entries, i, walk, width, printed);
                  (rest.0, pending + rest.1) == whole
      {
        var entry := entries[i];
        ghost var rest := AllPrepared(look, frontier, entries, i, walk, width, printed);
        var prepared := Prepared(look, frontier, if entry.id in printed then Some(printed[entry.id]) else None,
                                 entry, width, IsSeparated(walk, entry));
        match prepared {
          case None =>
          case Some(pair) =>
            printed := printed[entry.id := pair.0];
            ghost var later := AllPrepared(look, frontier, entries, i + 1, Walked(walk, entry), width, printed);
            assert pending + ([Pending(entry, pair.1)] + later.1) == pending + [Pending(entry, pair.1)] + later.1;
            pending := pending + [Pending(entry, pair.1)];
        }
        walk := Walked(walk, entry);
      }
      assert pending + [] == pending;
    }

    /** Prints what is settled or no longer fits; at most `capacity` rows stay live. */
    method Drain(look: Look, entries: seq<Entry>, running: bool, width: nat, capacity: nat)
      returns (committed: seq<FlowRow>, live: seq<FlowRow>)
      requires Valid() && Segments(look.g)
      modifies this
      ensures Valid() && Value() == Drained(look, old(Value()), entries, running, width, capacity)
      ensures var out := DrainOutput(look, old(Value()), entries, running, width, capacity);
              committed == out.committed && live == out.live
      ensures |live| <= capacity
    {
      hide Forgotten, Gone, PrintCount, Printed, Tagged, Ranges, Segments, AllPrepared, AllCommitted, Mutable;
      Forget(entries);
      ghost var kept := Value();
      PreparedReceipts(look, frontier, entries, 0, Start(), width, printed);
      var pending := Prepare(look, entries, width);
      committed, live := [], [];
      liveEntry := None;
      tail := [];
      ghost var whole := AllCommitted(Output(printed, [], [], None, log, []), pending, 0, running, capacity);
      for i := 0 to |pending|
        invariant frontier == kept.frontier
        invariant AllReceipts(pending, printed)
        invariant liveEntry.Some? ==> liveEntry.value.id in printed
        invariant |live| <= capacity
        invariant AllCommitted(Output(printed, committed, live, liveEntry, log, tail), pending, i, running,
                               capacity) == whole
      {
        var p := pending[i];
        var mutable := Mutable(pending, i, running);
        CommitNext(Output(printed, committed, live, liveEntry, log, tail), pending, i, running, capacity);
        var receipt := printed[p.entry.id];
        var count := PrintCount(p.rows, mutable, capacity);
        var remaining := p.rows[count..];
        committed := committed + p.rows[..count];
        log := log + Tagged(p.entry.id, Ranges(p.rows[..count], receipt.base));
        tail := Tagged(p.entry.id, Ranges(remaining, receipt.base));
        printed := printed[p.entry.id := Printed(receipt, p.entry, p.rows, count, mutable)];
        live := remaining;
        if |live| > 0 {
          liveEntry := Some(p.entry);
        }
      }
      CommitNothing(Output(printed, committed, live, liveEntry, log, tail), pending, running, capacity);
    }
  }
}
