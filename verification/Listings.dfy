/**
 The directory listing builder: a tree of entries under a limit, a depth and a byte budget.

 `Lister` adds up the size of its JSON result as it goes. `PayloadJson` is that result written out,
 and the two agree at every step. A directory's visible entries, sorted, are given; every `char` of
 a result is one byte, and `quote` writes a string as JSON.
 */
module Listings {
  import opened Basics
  import opened Json

  const RESULT_BYTES: nat := 1024 * 1024
  const RESERVE_BYTES: nat := 128

  datatype Reason = ByDepth | ByLimit | ByBytes

  /** A visible entry. `directory` says that it is one and not a link to one. */
  datatype Entry = Entry(name: string, path: string, kind: string, directory: bool, children: seq<Entry>)

  /** Only directories of a tree have a list of children. */
  datatype Inner = NoList | Children(nodes: seq<EntryNode>)

  datatype EntryNode = EntryNode(name: string, path: string, kind: string, children: Inner, omitted: Option<Reason>)

  datatype Listing = Listing(path: string, tree: bool, depth: nat, limit: nat, quote: string -> string)

  /** Everything counted while the tree grows. */
  datatype Ledger = Ledger(bytes: int, count: nat, stopped: bool, depthOmitted: nat, limitOmitted: bool,
                           bytesOmitted: bool)

  datatype Payload = Payload(count: nat, entries: seq<EntryNode>, depthOmitted: nat, limitOmitted: bool,
                             bytesOmitted: bool, omitted: Option<Reason>)

  // ---------------------------------------------------------------- the result as JSON

  function OmittedField(reason: Option<Reason>): (field: string)
    ensures |field| == if reason.Some? then 26 else 0
  {
    match reason
    case None => ""
    case Some(ByDepth) => ",\"childrenOmitted\":\"depth\""
    case Some(ByLimit) => ",\"childrenOmitted\":\"limit\""
    case Some(ByBytes) => ",\"childrenOmitted\":\"bytes\""
  }

  function NodeHead(quote: string -> string, node: EntryNode): string {
    "{\"name\":" + quote(node.name) + ",\"path\":" + quote(node.path) + ",\"type\":" + quote(node.kind)
  }

  function NodeJson(quote: string -> string, node: EntryNode): string
    decreases node
  {
    NodeHead(quote, node)
    + (match node.children case NoList => "" case Children(nodes) => ",\"children\":[" + ListJson(quote, nodes) + "]")
    + OmittedField(node.omitted) + "}"
  }

  function ListJson(quote: string -> string, nodes: seq<EntryNode>): string
    decreases nodes
  {
    if nodes == [] then ""
    else if |nodes| == 1 then NodeJson(quote, nodes[0])
    else NodeJson(quote, nodes[0]) + "," + ListJson(quote, nodes[1..])
  }

  function PayloadJson(l: Listing, p: Payload): string {
    "{\"path\":" + l.quote(l.path) + ",\"tree\":" + Truth(l.tree)
    + ",\"depth\":" + Digits(if l.tree then l.depth else 1)
    + ",\"limit\":" + Digits(l.limit) + ",\"count\":" + Digits(p.count)
    + ",\"entries\":[" + ListJson(l.quote, p.entries)
    + "],\"omitted\":{\"depth\":" + Digits(p.depthOmitted) + ",\"limit\":" + Truth(p.limitOmitted)
    + ",\"bytes\":" + Truth(p.bytesOmitted) + "}" + OmittedField(p.omitted) + "}"
  }

  // ---------------------------------------------------------------- one step of the ledger

  function Leaf(l: Listing, entry: Entry): EntryNode {
    EntryNode(entry.name, entry.path, entry.kind, if l.tree && entry.directory then Children([]) else NoList, None)
  }

  function InsertionBytes(l: Listing, entry: Entry, before: nat): nat {
    |NodeJson(l.quote, Leaf(l, entry))| + if before == 0 then 0 else 1
  }

  /** `markChildrenOmitted` and `setSummaryFlag`: the listing ends here. */
  function Stopped(ledger: Ledger, reason: Reason): Ledger {
    ledger.(
      bytes := ledger.bytes + |OmittedField(Some(reason))|
               + (if reason.ByLimit? then |Truth(true)| - |Truth(ledger.limitOmitted)| else 0)
               + (if reason.ByBytes? then |Truth(true)| - |Truth(ledger.bytesOmitted)| else 0),
      stopped := true, limitOmitted := ledger.limitOmitted || reason.ByLimit?,
      bytesOmitted := ledger.bytesOmitted || reason.ByBytes?)
  }

  /** `markDepthOmitted`: of a directory, or of the listed path itself, which takes no mark. */
  function DepthMarked(ledger: Ledger, marked: bool): Ledger {
    ledger.(
      bytes := ledger.bytes + (if marked then |OmittedField(Some(ByDepth))| else 0)
               + |Digits(ledger.depthOmitted + 1)| - |Digits(ledger.depthOmitted)|,
      depthOmitted := ledger.depthOmitted + 1)
  }

  function Inserted(ledger: Ledger, insertion: nat): Ledger {
    ledger.(bytes := ledger.bytes + insertion, count := ledger.count + 1)
  }

  datatype Outcome = Outcome(ledger: Ledger, nodes: seq<EntryNode>, omitted: Option<Reason>)

  /** What is listed of a directory's entries when `before` of them already are, and why it ended early. */
  function Listed(l: Listing, entries: seq<Entry>, parentDepth: nat, ledger: Ledger, before: nat): Outcome
    decreases entries
  {
    if entries == [] || ledger.stopped then Outcome(ledger, [], None)
    else if ledger.count >= l.limit then Outcome(Stopped(ledger, ByLimit), [], Some(ByLimit))
    else
      var entry := entries[0];
      var insertion := InsertionBytes(l, entry, before);
      if ledger.bytes + insertion + RESERVE_BYTES > RESULT_BYTES
      then Outcome(Stopped(ledger, ByBytes), [], Some(ByBytes))
      else
        var below := Below(l, entry, parentDepth + 1, Inserted(ledger, insertion));
        var rest := Listed(l, entries[1..], parentDepth, below.ledger, before + 1);
        Outcome(rest.ledger, [Grown(l, entry, below)] + rest.nodes, rest.omitted)
  }

  /** The inside of an entry that has just been listed. */
  function Below(l: Listing, entry: Entry, entryDepth: nat, ledger: Ledger): Outcome
    decreases entry
  {
    if !(l.tree && entry.directory) then Outcome(ledger, [], None)
    else if entryDepth < l.depth then Listed(l, entry.children, entryDepth, ledger, 0)
    else if entry.children == [] then Outcome(ledger, [], None)
    else Outcome(DepthMarked(ledger, true), [], Some(ByDepth))
  }

  function Grown(l: Listing, entry: Entry, below: Outcome): EntryNode {
    if l.tree && entry.directory then Leaf(l, entry).(children := Children(below.nodes), omitted := below.omitted)
    else Leaf(l, entry)
  }

  // ---------------------------------------------------------------- the size is exact

  /** The bytes of nodes appended to a list that holds `before` nodes. */
  function Appending(quote: string -> string, nodes: seq<EntryNode>, before: nat): nat {
    if nodes == [] then 0
    else |NodeJson(quote, nodes[0])| + (if before == 0 then 0 else 1) + Appending(quote, nodes[1..], before + 1)
  }

  lemma {:induction false} AppendingLater(quote: string -> string, nodes: seq<EntryNode>, before: nat, before': nat)
    requires before > 0 && before' > 0
    ensures Appending(quote, nodes, before) == Appending(quote, nodes, before')
    decreases |nodes|
  {
    if nodes != [] {
      AppendingLater(quote, nodes[1..], before + 1, before' + 1);
    }
  }

  lemma {:induction false} ListSize(quote: string -> string, nodes: seq<EntryNode>)
    ensures |ListJson(quote, nodes)| == Appending(quote, nodes, 0)
    decreases |nodes|
  {
    if |nodes| == 1 {
      assert Appending(quote, nodes[1..], 1) == 0;
    } else if nodes != [] {
      ListSize(quote, nodes[1..]);
      assert Appending(quote, nodes[1..], 0) + 1 == Appending(quote, nodes[1..], 1) by {
        AppendingLater(quote, nodes[1..][1..], 1, 2);
      }
    }
  }

  function SummaryBytes(ledger: Ledger): nat {
    |Digits(ledger.depthOmitted)| + |Truth(ledger.limitOmitted)| + |Truth(ledger.bytesOmitted)|
  }

  /** The ledger's bytes grow by exactly what the result grows by. */
  ghost predicate Exact(quote: string -> string, before: Ledger, out: Outcome, listed: nat) {
    out.ledger.bytes - before.bytes
    == Appending(quote, out.nodes, listed) + |OmittedField(out.omitted)|
       + SummaryBytes(out.ledger) - SummaryBytes(before)
  }

  lemma {:induction false} GrownSize(l: Listing, entry: Entry, below: Outcome)
    requires l.tree && entry.directory
    ensures |NodeJson(l.quote, Grown(l, entry, below))|
         == |NodeJson(l.quote, Leaf(l, entry))| + Appending(l.quote, below.nodes, 0) + |OmittedField(below.omitted)|
  {
    ListSize(l.quote, below.nodes);
    var leaf, grown := Leaf(l, entry), Grown(l, entry, below);
    assert NodeHead(l.quote, grown) == NodeHead(l.quote, leaf);
    assert ListJson(l.quote, []) == "";
    hide NodeHead;
  }

  lemma {:induction false} BelowExact(l: Listing, entry: Entry, entryDepth: nat, ledger: Ledger)
    ensures Exact(l.quote, ledger, Below(l, entry, entryDepth, ledger), 0)
    ensures !(l.tree && entry.directory) ==> Below(l, entry, entryDepth, ledger) == Outcome(ledger, [], None)
    decreases entry
  {
    if l.tree && entry.directory && entryDepth < l.depth {
      ListedExact(l, entry.children, entryDepth, ledger, 0);
    }
  }

  /** Where a listing ends early its mark and its flag are paid for. */
  lemma {:induction false} StopExact(quote: string -> string, ledger: Ledger, reason: Reason, before: nat)
    requires !reason.ByDepth?
    ensures Exact(quote, ledger, Outcome(Stopped(ledger, reason), [], Some(reason)), before)
  {
    hide Digits, NodeJson, OmittedField;
  }

  lemma {:induction false} OneMoreExact(quote: string -> string, ledger: Ledger, below: Outcome, node: EntryNode,
                                        rest: Outcome, insertion: nat, before: nat)
    requires Exact(quote, Inserted(ledger, insertion), below, 0) && Exact(quote, below.ledger, rest, before + 1)
    requires |NodeJson(quote, node)| + (if before == 0 then 0 else 1)
          == insertion + Appending(quote, below.nodes, 0) + |OmittedField(below.omitted)|
    ensures Exact(quote, ledger, Outcome(rest.ledger, [node] + rest.nodes, rest.omitted), before)
  {
    hide Digits, NodeJson, OmittedField, Truth;
    assert ([node] + rest.nodes)[1..] == rest.nodes;
  }

  lemma {:induction false} ListedExact(l: Listing, entries: seq<Entry>, parentDepth: nat, ledger: Ledger, before: nat)
    ensures Exact(l.quote, ledger, Listed(l, entries, parentDepth, ledger, before), before)
    decreases entries
  {
    hide NodeJson, Below, Grown, Digits, Truth, Stopped, Inserted, OmittedField;
    if entries == [] || ledger.stopped {
      NothingExact(l.quote, ledger, before);
    } else if ledger.count >= l.limit {
      StopExact(l.quote, ledger, ByLimit, before);
    } else {
      var entry := entries[0];
      var insertion := InsertionBytes(l, entry, before);
      if ledger.bytes + insertion + RESERVE_BYTES > RESULT_BYTES {
        StopExact(l.quote, ledger, ByBytes, before);
      } else {
        var start := Inserted(ledger, insertion);
        var below := Below(l, entry, parentDepth + 1, start);
        BelowExact(l, entry, parentDepth + 1, start);
        ListedExact(l, entries[1..], parentDepth, below.ledger, before + 1);
        NodeGrows(l, entry, below);
        var rest := Listed(l, entries[1..], parentDepth, below.ledger, before + 1);
        OneMoreExact(l.quote, ledger, below, Grown(l, entry, below), rest, insertion, before);
      }
    }
  }

  lemma {:induction false} NothingExact(quote: string -> string, ledger: Ledger, before: nat)
    ensures Exact(quote, ledger, Outcome(ledger, [], None), before)
  {
  }

  lemma {:induction false} NodeGrows(l: Listing, entry: Entry, below: Outcome)
    requires !(l.tree && entry.directory) ==> below.nodes == [] && below.omitted == None
    ensures |NodeJson(l.quote, Grown(l, entry, below))|
         == |NodeJson(l.quote, Leaf(l, entry))| + Appending(l.quote, below.nodes, 0) + |OmittedField(below.omitted)|
  {
    if l.tree && entry.directory {
      GrownSize(l, entry, below);
    }
  }

  // ---------------------------------------------------------------- the budget holds

  lemma {:induction false} OneMoreDigit(n: nat)
    ensures |Digits(n)| <= |Digits(n + 1)| <= |Digits(n)| + 1
    decreases n
  {
    if n >= 10 {
      if (n + 1) / 10 != n / 10 {
        OneMoreDigit(n / 10);
      }
    }
  }

  /** Bytes between insertions: room for one depth mark, then for the mark that ends the listing. */
  ghost predicate Within(ledger: Ledger, most: int) {
    ledger.bytes <= most + if ledger.stopped then 25 else 0
  }

  lemma {:induction false} BelowWithin(l: Listing, entry: Entry, entryDepth: nat, ledger: Ledger, most: int)
    requires RESULT_BYTES - RESERVE_BYTES + 27 <= most
    requires ledger.bytes <= RESULT_BYTES - RESERVE_BYTES && !ledger.stopped && ledger.count <= l.limit
    requires !ledger.limitOmitted && !ledger.bytesOmitted
    ensures var after := Below(l, entry, entryDepth, ledger).ledger;
            && Within(after, most) && after.count <= l.limit
            && (!after.stopped ==> !after.limitOmitted && !after.bytesOmitted)
    decreases entry
  {
    OneMoreDigit(ledger.depthOmitted);
    hide Digits;
    if l.tree && entry.directory && entryDepth < l.depth {
      ListedWithin(l, entry.children, entryDepth, ledger, 0, most);
    }
  }

  lemma {:induction false} ListedWithin(l: Listing, entries: seq<Entry>, parentDepth: nat, ledger: Ledger, before: nat,
                                        most: int)
    requires RESULT_BYTES - RESERVE_BYTES + 27 <= most
    requires Within(ledger, most) && ledger.count <= l.limit
    requires !ledger.stopped ==> !ledger.limitOmitted && !ledger.bytesOmitted
    ensures var after := Listed(l, entries, parentDepth, ledger, before).ledger;
            && Within(after, most) && after.count <= l.limit
            && (!after.stopped ==> !after.limitOmitted && !after.bytesOmitted)
    decreases entries
  {
    hide NodeJson, Below, Digits;
    if entries != [] && !ledger.stopped && ledger.count < l.limit {
      var insertion := InsertionBytes(l, entries[0], before);
      if ledger.bytes + insertion + RESERVE_BYTES <= RESULT_BYTES {
        var below := Below(l, entries[0], parentDepth + 1, Inserted(ledger, insertion));
        BelowWithin(l, entries[0], parentDepth + 1, Inserted(ledger, insertion), most);
        ListedWithin(l, entries[1..], parentDepth, below.ledger, before + 1, most);
      }
    }
  }

  // ---------------------------------------------------------------- what is listed

  datatype Named = Named(name: string, path: string, kind: string)

  /** Every entry down to the depth, parents before their children. */
  function AllNames(l: Listing, entries: seq<Entry>, parentDepth: nat): seq<Named>
    decreases entries
  {
    if entries == [] then []
    else [Named(entries[0].name, entries[0].path, entries[0].kind)] + NamesBelow(l, entries[0], parentDepth + 1)
         + AllNames(l, entries[1..], parentDepth)
  }

  function NamesBelow(l: Listing, entry: Entry, entryDepth: nat): seq<Named>
    decreases entry
  {
    if l.tree && entry.directory && entryDepth < l.depth then AllNames(l, entry.children, entryDepth) else []
  }

  function NodeNames(nodes: seq<EntryNode>): seq<Named>
    decreases nodes
  {
    if nodes == [] then []
    else [Named(nodes[0].name, nodes[0].path, nodes[0].kind)]
         + (match nodes[0].children case NoList => [] case Children(inner) => NodeNames(inner))
         + NodeNames(nodes[1..])
  }

  /** The names listed are the first ones; all of them if nothing stopped the listing. */
  ghost predicate Leads(before: Ledger, out: Outcome, all: seq<Named>, limit: nat) {
    var names := NodeNames(out.nodes);
    && names <= all && out.ledger.count == before.count + |names|
    && (!out.ledger.stopped ==> names == all)
    && (out.ledger.stopped && !before.stopped ==> |names| < |all|)
    && (out.ledger.limitOmitted && !before.limitOmitted ==> out.ledger.count >= limit)
    && (before.stopped ==> out.ledger == before)
  }

  lemma {:induction false} LeadsCompose(first: Named, below: seq<Named>, rest: seq<Named>, allBelow: seq<Named>,
                                        allRest: seq<Named>)
    requires below <= allBelow && rest <= allRest && (below == allBelow || rest == [])
    ensures [first] + below + rest <= [first] + allBelow + allRest
  {
    if below == allBelow {
      assert [first] + allBelow + allRest == ([first] + below + rest) + allRest[|rest|..];
    } else {
      assert [first] + below + rest == [first] + below;
      assert [first] + allBelow + allRest == ([first] + below) + (allBelow[|below|..] + allRest);
    }
  }

  lemma {:induction false} BelowLeads(l: Listing, entry: Entry, entryDepth: nat, ledger: Ledger)
    requires !ledger.stopped
    ensures Leads(ledger, Below(l, entry, entryDepth, ledger), NamesBelow(l, entry, entryDepth), l.limit)
    ensures (l.tree && entry.directory) || Below(l, entry, entryDepth, ledger).nodes == []
    decreases entry
  {
    if l.tree && entry.directory && entryDepth < l.depth {
      ListedLeads(l, entry.children, entryDepth, ledger, 0);
    }
  }

  lemma {:induction false} ListedLeads(l: Listing, entries: seq<Entry>, parentDepth: nat, ledger: Ledger, before: nat)
    ensures ledger.stopped || Leads(ledger, Listed(l, entries, parentDepth, ledger, before),
                                    AllNames(l, entries, parentDepth), l.limit)
    ensures ledger.stopped ==> Listed(l, entries, parentDepth, ledger, before) == Outcome(ledger, [], None)
    decreases entries
  {
    hide InsertionBytes, Below, NamesBelow;
    if entries != [] && !ledger.stopped && ledger.count < l.limit {
      var entry := entries[0];
      var insertion := InsertionBytes(l, entry, before);
      if ledger.bytes + insertion + RESERVE_BYTES <= RESULT_BYTES {
        var start := Inserted(ledger, insertion);
        var below := Below(l, entry, parentDepth + 1, start);
        BelowLeads(l, entry, parentDepth + 1, start);
        ListedLeads(l, entries[1..], parentDepth, below.ledger, before + 1);
        var rest := Listed(l, entries[1..], parentDepth, below.ledger, before + 1);
        NamesOfGrown(l, entry, below, rest.nodes);
        LeadsCompose(Named(entry.name, entry.path, entry.kind), NodeNames(below.nodes), NodeNames(rest.nodes),
                     NamesBelow(l, entry, parentDepth + 1), AllNames(l, entries[1..], parentDepth));
      }
    }
  }

  lemma {:induction false} NamesOfGrown(l: Listing, entry: Entry, below: Outcome, rest: seq<EntryNode>)
    ensures (l.tree && entry.directory) || below.nodes == [] ==>
              NodeNames([Grown(l, entry, below)] + rest)
              == [Named(entry.name, entry.path, entry.kind)] + NodeNames(below.nodes) + NodeNames(rest)
  {
    var nodes := [Grown(l, entry, below)] + rest;
    assert nodes[1..] == rest;
  }

  /** An empty `children` list without a mark means an empty directory, and an empty directory shows as one. */
  ghost predicate Honest(l: Listing, entries: seq<Entry>, nodes: seq<EntryNode>, parentDepth: nat)
    decreases nodes
  {
    |nodes| <= |entries| && (nodes != [] ==>
      && (nodes[0].children.Children? <==> l.tree && entries[0].directory)
      && (nodes[0].children.Children? ==>
            && (nodes[0].children.nodes == [] && nodes[0].omitted.None? <==> entries[0].children == [])
            && (nodes[0].omitted == Some(ByDepth) <==> parentDepth + 1 >= l.depth && entries[0].children != [])
            && Honest(l, entries[0].children, nodes[0].children.nodes, parentDepth + 1))
      && Honest(l, entries[1..], nodes[1..], parentDepth))
  }

  lemma {:induction false} BelowHonest(l: Listing, entry: Entry, entryDepth: nat, ledger: Ledger)
    requires l.tree && entry.directory && !ledger.stopped
    ensures var below := Below(l, entry, entryDepth, ledger);
            && Honest(l, entry.children, below.nodes, entryDepth)
            && (below.nodes == [] && below.omitted.None? <==> entry.children == [])
            && (below.omitted == Some(ByDepth) <==> entryDepth >= l.depth && entry.children != [])
    decreases entry
  {
    if entryDepth < l.depth {
      ListedHonest(l, entry.children, entryDepth, ledger, 0);
    }
  }

  lemma {:induction false} ListedHonest(l: Listing, entries: seq<Entry>, parentDepth: nat, ledger: Ledger, before: nat)
    ensures var out := Listed(l, entries, parentDepth, ledger, before);
            && Honest(l, entries, out.nodes, parentDepth)
            && (!ledger.stopped ==> (out.nodes == [] && out.omitted.None? <==> entries == []))
            && out.omitted != Some(ByDepth)
    decreases entries
  {
    hide InsertionBytes, Below;
    if entries != [] && !ledger.stopped && ledger.count < l.limit {
      var entry := entries[0];
      var insertion := InsertionBytes(l, entry, before);
      if ledger.bytes + insertion + RESERVE_BYTES <= RESULT_BYTES {
        var start := Inserted(ledger, insertion);
        var below := Below(l, entry, parentDepth + 1, start);
        if l.tree && entry.directory {
          BelowHonest(l, entry, parentDepth + 1, start);
        }
        ListedHonest(l, entries[1..], parentDepth, below.ledger, before + 1);
        var rest := Listed(l, entries[1..], parentDepth, below.ledger, before + 1);
        assert ([Grown(l, entry, below)] + rest.nodes)[1..] == rest.nodes;
      }
    }
  }

  // ---------------------------------------------------------------- a whole listing

  function NewPayload(l: Listing): Payload {
    Payload(l.limit, [], 0, false, false, None)
  }

  function StartLedger(l: Listing): Ledger {
    Ledger(|PayloadJson(l, NewPayload(l))|, 0, false, 0, false, false)
  }

  /** The whole listing of a directory with these entries. */
  function Result(l: Listing, top: seq<Entry>): Outcome {
    if l.tree && l.depth == 0 then
      Outcome(if top == [] then StartLedger(l) else DepthMarked(StartLedger(l), false), [], None)
    else Listed(l, top, 0, StartLedger(l), 0)
  }

  function PayloadOf(out: Outcome, count: nat): Payload {
    Payload(count, out.nodes, out.ledger.depthOmitted, out.ledger.limitOmitted, out.ledger.bytesOmitted, out.omitted)
  }

  /** The bytes added up are those of the result, written with its limit for a count. */
  lemma {:induction false} ResultExact(l: Listing, top: seq<Entry>)
    ensures var out := Result(l, top);
            out.ledger.bytes == |PayloadJson(l, PayloadOf(out, l.limit))|
  {
    hide NodeJson, Listed, Digits, Truth, OmittedField;
    ListedExact(l, top, 0, StartLedger(l), 0);
    var out := Result(l, top);
    ListSize(l.quote, out.nodes);
    assert OmittedField(None) == "" by { NoField(); }
    assert ListJson(l.quote, []) == "";
  }

  lemma {:induction false} NoField()
    ensures OmittedField(None) == ""
  {
  }

  /** The final check never fails when the empty result leaves the mark that may end the listing its room. */
  lemma {:induction false} ResultFits(l: Listing, top: seq<Entry>)
    requires |PayloadJson(l, NewPayload(l))| + 25 <= RESULT_BYTES
    ensures var out := Result(l, top);
            out.ledger.count <= l.limit && |PayloadJson(l, PayloadOf(out, out.ledger.count))| <= RESULT_BYTES
  {
    hide PayloadJson, Listed;
    var out := Result(l, top);
    ResultExact(l, top);
    OneMoreDigit(0);
    var start := StartLedger(l).bytes;
    ListedWithin(l, top, 0, StartLedger(l), 0,
                 if start > RESULT_BYTES - RESERVE_BYTES + 27 then start else RESULT_BYTES - RESERVE_BYTES + 27);
    SmallerCount(l, out, out.ledger.count);
    assert l.tree && l.depth == 0 ==> out.ledger.bytes <= start by { SameDigits(); }
  }

  lemma {:induction false} SameDigits()
    ensures |Digits(0)| == |Digits(1)| == 1
  {
  }

  lemma {:induction false} SmallerCount(l: Listing, out: Outcome, count: nat)
    requires count <= l.limit
    ensures |PayloadJson(l, PayloadOf(out, count))| <= |PayloadJson(l, PayloadOf(out, l.limit))|
  {
    DigitsGrow(count, l.limit);
    hide Digits, ListJson, OmittedField;
  }

  lemma {:induction false} CountWidth(l: Listing, out: Outcome, count: nat)
    ensures |PayloadJson(l, PayloadOf(out, count))| + |Digits(l.limit)|
         == |PayloadJson(l, PayloadOf(out, l.limit))| + |Digits(count)|
  {
    hide Digits, ListJson, OmittedField;
  }

  /** The mark that ends a listing before its first entry, if there is one to leave out. */
  function MarkRoom(l: Listing, top: seq<Entry>): nat {
    if top == [] || (l.tree && l.depth == 0) then 0 else 25
  }

  /** Exactly when the final check fails: not even the empty result with its mark fits. */
  lemma {:induction false} OverBudgetExactly(l: Listing, top: seq<Entry>)
    requires l.limit >= 1
    ensures var out := Result(l, top);
            |PayloadJson(l, PayloadOf(out, out.ledger.count))| > RESULT_BYTES
            <==> |PayloadJson(l, NewPayload(l))| + MarkRoom(l, top) + 1 - |Digits(l.limit)| > RESULT_BYTES
  {
    var start := StartLedger(l);
    if start.bytes + 25 <= RESULT_BYTES {
      hide PayloadJson, Listed;
      ResultFits(l, top);
    } else {
      hide PayloadJson, NodeJson, Below;
      var out := Result(l, top);
      ResultExact(l, top);
      CountWidth(l, out, out.ledger.count);
      SameDigits();
      assert out.ledger.count == 0;
      assert out.ledger.bytes == start.bytes + MarkRoom(l, top);
    }
  }

  /** The listing is the first entries of the full one, as many as `count` says; all of them unless it says why not. */
  lemma {:induction false} ResultLeads(l: Listing, top: seq<Entry>)
    requires !(l.tree && l.depth == 0)
    ensures var out := Result(l, top);
            var names, all := NodeNames(out.nodes), AllNames(l, top, 0);
            && names <= all && |names| == out.ledger.count
            && (names == all <==> !out.ledger.stopped)
            && (out.ledger.limitOmitted ==> |names| >= l.limit)
            && Honest(l, top, out.nodes, 0)
  {
    hide Listed, AllNames, NodeNames, Honest, PayloadJson;
    ListedLeads(l, top, 0, StartLedger(l), 0);
    ListedHonest(l, top, 0, StartLedger(l), 0);
  }

  // ---------------------------------------------------------------- the builder

  class Lister {
    const l: Listing
    var serializedBytes: int
    var count: nat
    var stopped: bool
    var depthOmitted: nat
    var limitOmitted: bool
    var bytesOmitted: bool

    ghost function Value(): Ledger
      reads this
    {
      Ledger(serializedBytes, count, stopped, depthOmitted, limitOmitted, bytesOmitted)
    }

    constructor (l: Listing)
      ensures this.l == l && Value() == StartLedger(l)
    {
      this.l := l;
      serializedBytes, count, stopped := |PayloadJson(l, NewPayload(l))|, 0, false;
      depthOmitted, limitOmitted, bytesOmitted := 0, false, false;
    }

    /** Ends the listing: a mark on the parent, a flag in the summary. */
    method StopFor(reason: Reason) returns (omitted: Option<Reason>)
      requires !reason.ByDepth?
      modifies this
      ensures Value() == Stopped(old(Value()), reason) && omitted == Some(reason)
    {
      omitted := Some(reason);
      serializedBytes := serializedBytes + |OmittedField(omitted)|;
      if reason.ByLimit? {
        var before := |Truth(limitOmitted)|;
        limitOmitted := true;
        serializedBytes := serializedBytes + |Truth(limitOmitted)| - before;
      } else {
        var before := |Truth(bytesOmitted)|;
        bytesOmitted := true;
        serializedBytes := serializedBytes + |Truth(bytesOmitted)| - before;
      }
      stopped := true;
    }

    method MarkDepthOmitted(marked: bool) returns (omitted: Option<Reason>)
      modifies this`serializedBytes, this`depthOmitted
      ensures Value() == DepthMarked(old(Value()), marked) && omitted == if marked then Some(ByDepth) else None
    {
      omitted := if marked then Some(ByDepth) else None;
      serializedBytes := serializedBytes + |OmittedField(omitted)|;
      var before := |Digits(depthOmitted)|;
      depthOmitted := depthOmitted + 1;
      serializedBytes := serializedBytes + |Digits(depthOmitted)| - before;
    }

    method AppendEntries(entries: seq<Entry>, parentDepth: nat) returns (destination: seq<EntryNode>,
                                                                         omitted: Option<Reason>)
      modifies this
      ensures Outcome(Value(), destination, omitted) == Listed(l, entries, parentDepth, old(Value()), 0)
      decreases entries
    {
      hide NodeJson, Digits, OmittedField, Below, Truth, Leaf, InsertionBytes, Listed, Stopped, Inserted;
      destination, omitted := [], None;
      ghost var whole := Listed(l, entries, parentDepth, Value(), 0);
      assert entries[0..] == entries && [] + whole.nodes == whole.nodes;
      for i := 0 to |entries|
        invariant omitted.None? && |destination| == i
        invariant var rest := Listed(l, entries[i..], parentDepth, Value(), i);
                  whole == Outcome(rest.ledger, destination + rest.nodes, rest.omitted)
      {
        ListedStep(l, entries, i, parentDepth, Value());
        assert destination + [] == destination;
        if stopped {
          return;
        }
        if count >= l.limit {
          omitted := StopFor(ByLimit);
          return;
        }
        var entry := entries[i];
        var insertion := InsertionBytes(l, entry, |destination|);
        if serializedBytes + insertion + RESERVE_BYTES > RESULT_BYTES {
          omitted := StopFor(ByBytes);
          return;
        }
        InsertedIs(Value(), insertion);
        serializedBytes := serializedBytes + insertion;
        count := count + 1;
        var node := AppendNode(entry, parentDepth + 1);
        ghost var rest := Listed(l, entries[i + 1..], parentDepth, Value(), i + 1);
        assert destination + ([node] + rest.nodes) == destination + [node] + rest.nodes;
        destination := destination + [node];
      }
      NothingListed(l, parentDepth, Value());
      assert entries[|entries|..] == [] && destination + [] == destination;
    }

    /** The node of an entry just counted, with what is listed below it. */
    method AppendNode(entry: Entry, entryDepth: nat) returns (node: EntryNode)
      modifies this
      ensures var below := Below(l, entry, entryDepth, old(Value()));
              Value() == below.ledger && node == Grown(l, entry, below)
      decreases entry
    {
      node := Leaf(l, entry);
      if l.tree && entry.directory {
        if entryDepth >= l.depth {
          if |entry.children| > 0 {
            var omitted := MarkDepthOmitted(true);
            node := node.(omitted := omitted);
          }
        } else {
          var nodes, omitted := AppendEntries(entry.children, entryDepth);
          node := node.(children := Children(nodes), omitted := omitted);
        }
      }
    }
  }

  lemma {:induction false} InsertedIs(ledger: Ledger, insertion: nat)
    ensures Inserted(ledger, insertion) == ledger.(bytes := ledger.bytes + insertion, count := ledger.count + 1)
  {
  }

  lemma {:induction false} NothingListed(l: Listing, parentDepth: nat, ledger: Ledger)
    ensures forall before: nat :: Listed(l, [], parentDepth, ledger, before) == Outcome(ledger, [], None)
  {
  }

  /** One turn of the loop over entries. */
  lemma {:induction false} ListedStep(l: Listing, entries: seq<Entry>, i: nat, parentDepth: nat, ledger: Ledger)
    requires i < |entries|
    ensures var insertion := InsertionBytes(l, entries[i], i);
            var out := Listed(l, entries[i..], parentDepth, ledger, i);
            if ledger.stopped then out == Outcome(ledger, [], None)
            else if ledger.count >= l.limit then out == Outcome(Stopped(ledger, ByLimit), [], Some(ByLimit))
            else if ledger.bytes + insertion + RESERVE_BYTES > RESULT_BYTES then
              out == Outcome(Stopped(ledger, ByBytes), [], Some(ByBytes))
            else
              var below := Below(l, entries[i], parentDepth + 1, Inserted(ledger, insertion));
              var rest := Listed(l, entries[i + 1..], parentDepth, below.ledger, i + 1);
              out == Outcome(rest.ledger, [Grown(l, entries[i], below)] + rest.nodes, rest.omitted)
  {
    hide NodeJson, Below, Stopped;
    assert entries[i..][0] == entries[i] && entries[i..][1..] == entries[i + 1..];
  }

  /** The listing of a directory; None is the error of a result over its budget. */
  method Execute(l: Listing, top: seq<Entry>) returns (payload: Option<Payload>)
    ensures var out := Result(l, top);
            var full := PayloadOf(out, out.ledger.count);
            payload == if |PayloadJson(l, full)| <= RESULT_BYTES then Some(full) else None
    ensures |PayloadJson(l, NewPayload(l))| + 25 <= RESULT_BYTES ==> payload.Some?
  {
    hide PayloadJson, Listed;
    var lister := new Lister(l);
    var entries, omitted := [], None;
    if l.tree && l.depth == 0 {
      if |top| > 0 {
        var mark := lister.MarkDepthOmitted(false);
      }
    } else {
      entries, omitted := lister.AppendEntries(top, 0);
    }
    var full := Payload(lister.count, entries, lister.depthOmitted, lister.limitOmitted, lister.bytesOmitted, omitted);
    payload := if |PayloadJson(l, full)| <= RESULT_BYTES then Some(full) else None;
    if |PayloadJson(l, NewPayload(l))| + 25 <= RESULT_BYTES {
      ResultFits(l, top);
    }
  }
}
