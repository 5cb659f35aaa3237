/**
 The search result builder: matches and their context lines under a limit and a byte budget.

 `ResultAccumulator` keeps a ledger of record bytes and evicts context lines when a match needs the
 room. The matches kept are those of `Greedy`, which never hears of context.
 */
module SearchResults {
  import opened Basics
  import opened Json

  datatype LineKind = MatchLine | ContextLine

  datatype Item =
    | LineItem(path: string, line: nat, text: string, lineKind: LineKind)
    | FileItem(path: string)

  datatype RecordKind = MatchRecord | ContextRecord | FileRecord

  datatype Kept = Kept(value: Item, kind: RecordKind)

  datatype PendingLine = PendingLine(absolutePath: string, record: Item)

  /** What a search is given. `sizeOf` is the JSON size in bytes; `allows` and `relative` stand for path policy. */
  datatype Search = Search(limit: nat, context: nat, files: bool, maximumBytes: nat, grep: bool, ignoreApplied: bool,
                           sizeOf: Item -> nat, allows: string -> bool, relative: string -> string)
  {
    /** Bytes for records: the budget without the room kept for the envelope. */
    function Room(): int { maximumBytes - 2048 }
  }

  // ---------------------------------------------------------------- sizes

  function Sum(sizeOf: Item -> nat, records: seq<Kept>): nat {
    if records == [] then 0 else Sum(sizeOf, records[..|records| - 1]) + sizeOf(records[|records| - 1].value)
  }

  /** The records as they are joined in the result: a comma between each two. */
  function Joined(sizeOf: Item -> nat, records: seq<Kept>): nat {
    Sum(sizeOf, records) + if records == [] then 0 else |records| - 1
  }

  /** What the records take when one more follows. */
  function Need(sizeOf: Item -> nat, records: seq<Kept>): (need: nat)
    ensures need == Joined(sizeOf, records) + if records == [] then 0 else 1
  {
    Sum(sizeOf, records) + |records|
  }

  lemma {:induction false} NeedConcat(sizeOf: Item -> nat, a: seq<Kept>, b: seq<Kept>)
    ensures Need(sizeOf, a + b) == Need(sizeOf, a) + Need(sizeOf, b)
    decreases |b|
  {
    if b == [] {
      assert a + b == a;
    } else {
      assert (a + b)[..|a + b| - 1] == a + b[..|b| - 1];
      NeedConcat(sizeOf, a, b[..|b| - 1]);
    }
  }

  lemma {:induction false} NeedOne(sizeOf: Item -> nat, kept: Kept)
    ensures Need(sizeOf, [kept]) == sizeOf(kept.value) + 1
  {
    var one := [kept];
    assert one[..|one| - 1] == [] && one[|one| - 1] == kept;
    assert Sum(sizeOf, one) == Sum(sizeOf, []) + sizeOf(kept.value);
  }

  /** The records that are not context. */
  function Matches(records: seq<Kept>): (matches: seq<Kept>)
    ensures |matches| <= |records|
  {
    if records == [] then []
    else
      var last := records[|records| - 1];
      Matches(records[..|records| - 1]) + if last.kind.ContextRecord? then [] else [last]
  }

  lemma {:induction false} MatchesConcat(a: seq<Kept>, b: seq<Kept>)
    ensures Matches(a + b) == Matches(a) + Matches(b)
    decreases |b|
  {
    if b == [] {
      assert a + b == a;
    } else {
      assert (a + b)[..|a + b| - 1] == a + b[..|b| - 1];
      MatchesConcat(a, b[..|b| - 1]);
    }
  }

  lemma {:induction false} MatchesOne(kept: Kept)
    ensures Matches([kept]) == if kept.kind.ContextRecord? then [] else [kept]
  {
    assert [kept][..0] == [];
  }

  lemma {:induction false} MatchesTwice(records: seq<Kept>)
    ensures Matches(Matches(records)) == Matches(records)
    decreases |records|
  {
    if records != [] {
      var rest, last := records[..|records| - 1], records[|records| - 1];
      MatchesTwice(rest);
      MatchesOne(last);
      if last.kind.ContextRecord? {
        assert Matches(records) == Matches(rest);
      } else {
        assert Matches(records) == Matches(rest) + [last];
        MatchesConcat(Matches(rest), [last]);
      }
    }
  }

  lemma {:induction false} MatchesNeed(sizeOf: Item -> nat, records: seq<Kept>)
    ensures Need(sizeOf, Matches(records)) <= Need(sizeOf, records)
    decreases |records|
  {
    if records != [] {
      var rest, last := records[..|records| - 1], records[|records| - 1];
      MatchesNeed(sizeOf, rest);
      if last.kind.ContextRecord? {
        assert Matches(records) == Matches(rest);
      } else {
        assert Matches(records) == Matches(rest) + [last];
        NeedConcat(sizeOf, Matches(rest), [last]);
        NeedOne(sizeOf, last);
      }
    }
  }

  // ---------------------------------------------------------------- the greedy fill

  /** Filling the room with the offered matches in order, each kept if it still fits. */
  function Greedy(search: Search, offered: seq<Kept>): (kept: seq<Kept>)
    ensures |kept| <= |offered|
  {
    if offered == [] then []
    else
      var before := Greedy(search, offered[..|offered| - 1]);
      var last := offered[|offered| - 1];
      if Need(search.sizeOf, before) + search.sizeOf(last.value) <= search.Room() then before + [last] else before
  }

  /** The first matches, as many as the limit allows. */
  function Offered(search: Search, matches: seq<Kept>): (offered: seq<Kept>)
    ensures |offered| == if |matches| <= search.limit then |matches| else search.limit
    ensures offered <= matches
  {
    if |matches| <= search.limit then matches else matches[..search.limit]
  }

  // ---------------------------------------------------------------- evicting context

  /** The first `i` records without their context, then the rest. */
  function Evicted(records: seq<Kept>, i: nat): seq<Kept>
    requires i <= |records|
  {
    Matches(records[..i]) + records[i..]
  }

  lemma {:induction false} EvictStep(sizeOf: Item -> nat, records: seq<Kept>, i: nat)
    requires i < |records|
    ensures if records[i].kind.ContextRecord? then
              && |Evicted(records, i)| == |Evicted(records, i + 1)| + 1
              && Need(sizeOf, Evicted(records, i)) == Need(sizeOf,
                                                           Evicted(records, i + 1)) + sizeOf(records[i].value) + 1
            else Evicted(records, i + 1) == Evicted(records, i)
  {
    assert records[..i + 1] == records[..i] + [records[i]];
    MatchesConcat(records[..i], [records[i]]);
    MatchesOne(records[i]);
    assert records[i..] == [records[i]] + records[i + 1..];
    NeedConcat(sizeOf, Matches(records[..i]), records[i..]);
    NeedConcat(sizeOf, [records[i]], records[i + 1..]);
    NeedOne(sizeOf, records[i]);
    NeedConcat(sizeOf, Matches(records[..i + 1]), records[i + 1..]);
    if records[i].kind.ContextRecord? {
      assert Matches(records[..i]) + [] == Matches(records[..i]);
    } else {
      assert Evicted(records, i + 1) == Evicted(records, i);
    }
  }

  lemma {:induction false} EvictedMatches(records: seq<Kept>, i: nat)
    requires i <= |records|
    ensures Matches(Evicted(records, i)) == Matches(records)
  {
    MatchesConcat(Matches(records[..i]), records[i..]);
    MatchesTwice(records[..i]);
    MatchesConcat(records[..i], records[i..]);
    assert records == records[..i] + records[i..];
  }

  lemma {:induction false} EvictedEnds(records: seq<Kept>)
    ensures Evicted(records, 0) == records && Evicted(records, |records|) == Matches(records)
  {
    assert records[..|records|] == records;
    assert Matches(records) + [] == Matches(records);
  }

  /** Where the context records among the first `i` are. */
  function ContextsAt(records: seq<Kept>, i: nat): (at: seq<nat>)
    requires i <= |records|
  {
    if i == 0 then []
    else ContextsAt(records, i - 1) + if records[i - 1].kind.ContextRecord? then [i - 1] else []
  }

  predicate NoneFrom(records: seq<Kept>, from: nat, stop: nat)
    requires stop <= |records|
  {
    forall k: nat :: from <= k < stop ==> !records[k].kind.ContextRecord?
  }

  lemma {:induction false} LastContext(records: seq<Kept>, i: nat)
    requires i <= |records| && ContextsAt(records, i) != []
    ensures var at := ContextsAt(records, i);
            var e := at[|at| - 1];
            && e < i && records[e].kind.ContextRecord?
            && ContextsAt(records, e) == at[..|at| - 1] && NoneFrom(records, e + 1, i)
  {
    if !records[i - 1].kind.ContextRecord? {
      LastContext(records, i - 1);
      assert ContextsAt(records, i) == ContextsAt(records, i - 1);
    }
  }

  lemma {:induction false} OnlyMatches(records: seq<Kept>, start: nat, stop: nat)
    requires start <= stop <= |records| && NoneFrom(records, start, stop)
    ensures Matches(records[start..stop]) == records[start..stop]
    decreases stop
  {
    var slice := records[start..stop];
    if start < stop {
      OnlyMatches(records, start, stop - 1);
      assert slice[..|slice| - 1] == records[start..stop - 1];
    }
  }

  lemma {:induction false} NoContext(records: seq<Kept>, i: nat)
    requires i <= |records| && ContextsAt(records, i) == []
    ensures NoneFrom(records, 0, i)
  {
    if i > 0 {
      NoContext(records, i - 1);
    }
  }

  /** Splices records out at the given positions, last first. */
  method Splice(records: seq<Kept>, evictions: seq<nat>, stop: nat) returns (left: seq<Kept>)
    requires stop <= |records| && evictions == ContextsAt(records, stop)
    ensures left == Evicted(records, stop)
  {
    hide Matches, ContextsAt, Evicted;
    left := records;
    var k: nat := |evictions|;
    ghost var p: nat := stop;
    NoneOut(records, stop);
    while k > 0
      invariant k <= |evictions| && p <= stop
      invariant evictions[..k] == ContextsAt(records, p)
      invariant left == records[..p] + Matches(records[p..stop]) + records[stop..]
    {
      LastContext(records, p);
      OnlyMatches(records, evictions[k - 1] + 1, p);
      var e := evictions[k - 1];
      assert evictions[..k][k - 1] == e && evictions[..k][..k - 1] == evictions[..k - 1];
      SpliceOne(records, e, p, stop);
      left := left[..e] + left[e + 1..];
      p, k := e, k - 1;
    }
    AllOut(records, p, stop);
  }

  lemma {:induction false} NoneOut(records: seq<Kept>, stop: nat)
    requires stop <= |records|
    ensures records == records[..stop] + Matches(records[stop..stop]) + records[stop..]
  {
  }

  lemma {:induction false} AllOut(records: seq<Kept>, p: nat, stop: nat)
    requires p <= stop <= |records| && ContextsAt(records, p) == []
    ensures records[..p] + Matches(records[p..stop]) + records[stop..] == Evicted(records, stop)
  {
    hide Matches, ContextsAt;
    NoContext(records, p);
    OnlyMatches(records, 0, p);
    assert records[0..p] == records[..p];
    MatchesConcat(records[..p], records[p..stop]);
    assert records[..stop] == records[..p] + records[p..stop];
  }

  lemma {:induction false} SpliceOne(records: seq<Kept>, e: nat, p: nat, stop: nat)
    requires e < p <= stop <= |records| && records[e].kind.ContextRecord?
    requires Matches(records[e + 1..p]) == records[e + 1..p]
    ensures var left := records[..p] + Matches(records[p..stop]) + records[stop..];
            left[..e] + left[e + 1..] == records[..e] + Matches(records[e..stop]) + records[stop..]
  {
    var a, c, b, later, rest := records[..e], records[e], records[e + 1..p], Matches(records[p..stop]), records[stop..];
    hide Matches;
    SliceSplit(records, e, p, stop);
    MatchesConcat([c], b + records[p..stop]);
    MatchesConcat(b, records[p..stop]);
    MatchesOne(c);
    assert Matches(records[e..stop]) == b + later;
    DropAt(a, c, b, later, rest);
  }

  lemma {:induction false} SliceSplit<T>(s: seq<T>, e: nat, p: nat, stop: nat)
    requires e < p <= stop <= |s|
    ensures s[e..stop] == [s[e]] + (s[e + 1..p] + s[p..stop])
    ensures s[..p] == s[..e] + [s[e]] + s[e + 1..p]
  {
  }

  lemma {:induction false} DropAt<T>(a: seq<T>, c: T, b: seq<T>, later: seq<T>, rest: seq<T>)
    ensures var left := a + [c] + b + later + rest;
            left[..|a|] + left[|a| + 1..] == a + (b + later) + rest
  {
    var left := a + [c] + b + later + rest;
    assert left == a + ([c] + (b + later + rest));
    assert left[..|a|] == a && left[|a| + 1..] == b + later + rest;
  }

  // ---------------------------------------------------------------- the result

  datatype Counts = Counts(total: nat, returned: nat, omittedMatches: nat, byLimit: nat, byResultBytes: nat,
                           omittedContexts: nat, contextReturned: nat)

  datatype Payload = Payload(counts: Counts, records: seq<Kept>)

  /** Everything around the records in the JSON result. */
  function Envelope(search: Search, c: Counts): string {
    "{\"backend\":\"" + (if search.grep then "grep" else "rg") + "\",\"ignoreApplied\":" + Truth(search.ignoreApplied)
    + ",\"searchCompleted\":true,\"output\":\"" + (if search.files then "files" else "lines")
    + "\",\"total\":" + Digits(c.total) + ",\"returned\":" + Digits(c.returned)
    + ",\"omitted\":{\"matches\":" + Digits(c.omittedMatches) + ",\"byLimit\":" + Digits(c.byLimit)
    + ",\"byResultBytes\":" + Digits(c.byResultBytes) + ",\"contexts\":" + Digits(c.omittedContexts)
    + "},\"contextReturned\":" + Digits(c.contextReturned) + ",\"records\":[" + "]}"
  }

  function PayloadBytes(search: Search, payload: Payload): nat {
    |Envelope(search, payload.counts)| + Joined(search.sizeOf, payload.records)
  }

  /** Numbers of at most sixteen digits, which covers every safe integer. */
  predicate Short(n: nat) { n < 10_000_000_000_000_000 }

  lemma {:induction false} ShortDigits(n: nat)
    requires Short(n)
    ensures |Digits(n)| <= 16
  {
    assert Pow10(4) == 10_000;
    assert Pow10(8) == 100_000_000;
    assert Pow10(12) == 1_000_000_000_000;
    assert Pow10(16) == 10_000_000_000_000_000;
    DigitsShort(n, 16);
  }

  lemma {:induction false} EnvelopeSmall(search: Search, c: Counts)
    requires Short(c.total) && Short(c.returned) && Short(c.omittedMatches) && Short(c.byLimit)
    requires Short(c.byResultBytes) && Short(c.omittedContexts) && Short(c.contextReturned)
    ensures |Envelope(search, c)| <= 2048
  {
    ShortDigits(c.total);
    ShortDigits(c.returned);
    ShortDigits(c.omittedMatches);
    ShortDigits(c.byLimit);
    ShortDigits(c.byResultBytes);
    ShortDigits(c.omittedContexts);
    ShortDigits(c.contextReturned);
    hide Digits, Short;
  }

  // ---------------------------------------------------------------- the accumulator

  datatype Event =
    | SeenLine(absolutePath: string, line: nat, text: string, kind: LineKind)
    | SeenFile(absolutePath: string)

  /** What one event adds to the matches found so far. */
  function MatchesAfter(search: Search, matches: seq<Kept>, event: Event): seq<Kept> {
    if !search.allows(event.absolutePath) then matches
    else
      var path := search.relative(event.absolutePath);
      match event
      case SeenFile(_) => FileMatched(matches, path)
      case SeenLine(_, line, text, kind) =>
        if kind.ContextLine? then matches
        else if search.files then FileMatched(matches, path)
        else matches + [Kept(LineItem(path, line, text, kind), MatchRecord)]
  }

  function FileMatched(matches: seq<Kept>, path: string): seq<Kept> {
    var kept := Kept(FileItem(path), FileRecord);
    if kept in matches then matches else matches + [kept]
  }

  /** The matches of a run of events, in order: every matching line, or every matching file once. */
  function AllMatches(search: Search, events: seq<Event>): seq<Kept> {
    if events == [] then []
    else MatchesAfter(search, AllMatches(search, events[..|events| - 1]), events[|events| - 1])
  }

  /** A line close enough after the last kept match of its file. */
  predicate TrailsAfter(search: Search, last: Option<Item>, record: Item) {
    && last.Some? && last.value.LineItem? && record.LineItem?
    && record.path == last.value.path && record.line <= last.value.line + search.context
  }

  /** The records once a context line is offered, `reserved` bytes being kept free. */
  function WithContext(search: Search, records: seq<Kept>, record: Item, reserved: nat): seq<Kept> {
    if Need(search.sizeOf, records) + search.sizeOf(record) + reserved <= search.Room()
    then records + [Kept(record, ContextRecord)] else records
  }

  /** The records once the waiting context lines are offered, in order. */
  function Flushed(search: Search, records: seq<Kept>, pending: seq<PendingLine>, last: Option<Item>,
                   trailingOnly: bool, reserved: nat): seq<Kept>
  {
    if pending == [] then records
    else
      var before := Flushed(search, records, pending[..|pending| - 1], last, trailingOnly, reserved);
      var item := pending[|pending| - 1];
      if (trailingOnly && !TrailsAfter(search, last, item.record)) || !search.allows(item.absolutePath) then before
      else WithContext(search, before, item.record, reserved)
  }

  class ResultAccumulator {
    const search: Search
    var records: seq<Kept>
    var files: set<string>
    var pendingContexts: seq<PendingLine>
    var currentPath: Option<string>
    var lastKeptMatch: Option<Item>
    var total: nat
    var selected: nat
    var returnedMatches: nat
    var returnedContexts: nat
    var omittedContexts: nat
    var recordBytes: nat
    /** Every match found so far, kept or not. */
    ghost var matches: seq<Kept>

    /** The byte ledger and the counts agree with the records. */
    ghost predicate Ledger()
      reads this
    {
      && recordBytes == Joined(search.sizeOf, records)
      && returnedMatches == |Matches(records)|
      && returnedMatches + returnedContexts == |records|
      && (records == [] || recordBytes <= search.Room())
    }

    ghost predicate Counted()
      reads this
    {
      && total == |matches|
      && selected == (if total <= search.limit then total else search.limit)
      && (forall path :: path in files <==> Kept(FileItem(path), FileRecord) in matches)
      && (forall i :: 0 <= i < |pendingContexts| ==> pendingContexts[i].record.LineItem?)
      && (lastKeptMatch.Some? ==> lastKeptMatch.value.LineItem?)
    }

    /** The matches kept are the greedy fill over the first matches, whatever context came between. */
    ghost predicate Valid()
      reads this
    {
      Ledger() && Counted() && Matches(records) == Greedy(search, Offered(search, matches))
    }

    constructor (search: Search)
      ensures Valid() && this.search == search && matches == []
    {
      this.search := search;
      records, files, pendingContexts, currentPath, lastKeptMatch := [], {}, [], None, None;
      total, selected, returnedMatches, returnedContexts, omittedContexts, recordBytes := 0, 0, 0, 0, 0, 0;
      matches := [];
    }

    method Append(value: Item, kind: RecordKind, reserved: nat) returns (kept: bool)
      requires Ledger()
      modifies this`records, this`recordBytes, this`returnedMatches, this`returnedContexts, this`omittedContexts
      ensures recordBytes == Joined(search.sizeOf, records) && (records == [] || recordBytes <= search.Room())
      ensures kind.ContextRecord? ==>
                && kept == (Need(search.sizeOf, old(records)) + search.sizeOf(value) + reserved <= search.Room())
                && records == (if kept then old(records) + [Kept(value, kind)] else old(records))
                && omittedContexts == old(omittedContexts)
      ensures !kind.ContextRecord? ==>
                && kept == (Need(search.sizeOf,
                                 Matches(old(records))) + search.sizeOf(value) + reserved <= search.Room())
                && Matches(records) == Matches(old(records)) + if kept then [Kept(value, kind)] else []
      ensures returnedMatches == old(returnedMatches)
      ensures |records| == returnedMatches + returnedContexts + if kept then 1 else 0
    {
      var size := search.sizeOf(value);
      var item := Kept(value, kind);
      if !Fits(size, reserved) && !kind.ContextRecord? {
        MakeRoom(size, reserved);
      }
      PushFacts(search.sizeOf, records, item);
      hide Matches, Sum, Joined, Need;
      kept := Fits(size, reserved);
      if kept {
        records := records + [item];
        recordBytes := recordBytes + (if |records| == 1 then 0 else 1) + size;
      }
    }

    predicate Fits(size: nat, reserved: nat)
      reads this`records, this`recordBytes
    {
      recordBytes + (if |records| == 0 then 0 else 1) + size + reserved <= search.Room()
    }

    /** Evicts context records, oldest first, if that makes a match fit; otherwise none. */
    method MakeRoom(size: nat, reserved: nat)
      requires Ledger() && !Fits(size, reserved)
      modifies this`records, this`recordBytes, this`returnedContexts, this`omittedContexts
      ensures Ledger() && Matches(records) == Matches(old(records))
      ensures Fits(size, reserved)
              <==> Need(search.sizeOf, Matches(old(records))) + size + reserved <= search.Room()
      ensures returnedContexts + omittedContexts == old(returnedContexts + omittedContexts)
    {
      var found, evictions, stop, projectedBytes := FindEvictions(size, reserved);
      if found {
        MatchesNeed(search.sizeOf, Evicted(records, stop));
        EvictedMatches(records, stop);
        hide Evicted, ContextsAt, Joined, Matches;
        Evict(evictions, stop, projectedBytes);
      }
    }

    /** The shortest run of oldest context records without which the match fits. */
    method FindEvictions(size: nat, reserved: nat)
      returns (found: bool, evictions: seq<nat>, stop: nat, projectedBytes: nat)
      requires Ledger() && !Fits(size, reserved)
      ensures stop <= |records|
      ensures found ==> evictions == ContextsAt(records, stop)
      ensures found ==> projectedBytes == Joined(search.sizeOf, Evicted(records, stop))
      ensures found ==> Need(search.sizeOf, Evicted(records, stop)) + size + reserved <= search.Room()
      ensures !found ==> Need(search.sizeOf, Matches(records)) + size + reserved > search.Room()
      ensures found ==> stop > 0 && NoRoom(search, records, stop - 1, size + reserved)
    {
      evictions, stop, projectedBytes := [], 0, recordBytes;
      var projectedCount: nat := |records|;
      StartEvicting(search, records, size + reserved);
      hide Evicted, ContextsAt, Joined, Need, Matches, Evicting;
      while stop < |records|
        invariant stop <= |records|
        invariant Evicting(search, records, stop, evictions, projectedBytes, projectedCount, size + reserved)
      {
        KeepEvicting(search, records, stop, evictions, projectedBytes, projectedCount, size + reserved);
        var record := records[stop];
        stop := stop + 1;
        if record.kind.ContextRecord? {
          projectedBytes := projectedBytes - (search.sizeOf(record.value) + if projectedCount > 1 then 1 else 0);
          projectedCount := projectedCount - 1;
          evictions := evictions + [stop - 1];
          if projectedBytes + (if projectedCount == 0 then 0 else 1) + size + reserved <= search.Room() {
            return true, evictions, stop, projectedBytes;
          }
        }
      }
      NothingEvicts(search, records, evictions, projectedBytes, projectedCount, size + reserved);
      found := false;
    }

    method Evict(evictions: seq<nat>, stop: nat, projectedBytes: nat)
      requires Ledger() && stop <= |records| && evictions == ContextsAt(records, stop)
      requires projectedBytes == Joined(search.sizeOf, Evicted(records, stop)) <= search.Room()
      modifies this`records, this`recordBytes, this`returnedContexts, this`omittedContexts
      ensures Ledger() && records == Evicted(old(records), stop) && recordBytes == projectedBytes
      ensures returnedContexts + omittedContexts == old(returnedContexts + omittedContexts)
    {
      EvictedMatches(records, stop);
      EvictedCount(records, stop);
      hide Evicted, ContextsAt, Joined, Matches;
      var left := Splice(records, evictions, stop);
      records := left;
      recordBytes := projectedBytes;
      returnedContexts := returnedContexts - |evictions|;
      omittedContexts := omittedContexts + |evictions|;
    }

    /** Keeps or counts off the waiting context lines; `reserved` bytes stay free for a match. */
    method FlushContexts(trailingOnly: bool, reserved: nat)
      requires Ledger() && PendingLines()
      modifies this`records, this`recordBytes, this`returnedMatches, this`returnedContexts, this`omittedContexts,
        this`pendingContexts
      ensures Ledger() && Matches(records) == Matches(old(records)) && returnedMatches == old(returnedMatches)
      ensures pendingContexts == []
      ensures records == Flushed(search, old(records), old(pendingContexts), lastKeptMatch, trailingOnly, reserved)
    {
      hide Matches, Joined, Need;
      var pending := pendingContexts;
      pendingContexts := [];
      for i := 0 to |pending|
        invariant Ledger() && Matches(records) == Matches(old(records)) && returnedMatches == old(returnedMatches)
        invariant pendingContexts == [] && pending == old(pendingContexts)
        invariant records == Flushed(search, old(records), pending[..i], lastKeptMatch, trailingOnly, reserved)
      {
        var item := pending[i];
        assert pending[..i + 1][..i] == pending[..i];
        if trailingOnly && !Trails(item.record) {
          omittedContexts := omittedContexts + 1;
          continue;
        }
        if search.allows(item.absolutePath) {
          AppendContext(item.record, reserved);
        }
      }
      assert pending[..|pending|] == pending;
    }

    ghost predicate PendingLines()
      reads this
    {
      && (forall i :: 0 <= i < |pendingContexts| ==> pendingContexts[i].record.LineItem?)
      && (lastKeptMatch.Some? ==> lastKeptMatch.value.LineItem?)
    }

    /** A context line close enough after the last kept match. */
    predicate Trails(record: Item)
      requires record.LineItem? && (lastKeptMatch.Some? ==> lastKeptMatch.value.LineItem?)
      ensures Trails(record) == TrailsAfter(search, lastKeptMatch, record)
      reads this`lastKeptMatch
    {
      && lastKeptMatch.Some? && record.path == lastKeptMatch.value.path
      && record.line <= lastKeptMatch.value.line + search.context
    }

    method AppendContext(record: Item, reserved: nat)
      requires Ledger()
      modifies this`records, this`recordBytes, this`returnedMatches, this`returnedContexts, this`omittedContexts
      ensures Ledger() && Matches(records) == Matches(old(records)) && returnedMatches == old(returnedMatches)
      ensures records == WithContext(search, old(records), record, reserved)
    {
      MatchesConcat(records, [Kept(record, ContextRecord)]);
      MatchesOne(Kept(record, ContextRecord));
      assert Matches(records) + [] == Matches(records);
      hide Matches, Joined, Need;
      var kept := Append(record, ContextRecord, reserved);
      if kept {
        returnedContexts := returnedContexts + 1;
      } else {
        omittedContexts := omittedContexts + 1;
      }
    }

    /** Offers a match within the limit: kept exactly when it fits with every context line evicted. */
    method AppendMatch(value: Item, kind: RecordKind) returns (kept: bool)
      requires Ledger() && !kind.ContextRecord?
      modifies this`records, this`recordBytes, this`returnedMatches, this`returnedContexts, this`omittedContexts
      ensures Ledger()
      ensures kept == (Need(search.sizeOf, Matches(old(records))) + search.sizeOf(value) <= search.Room())
      ensures Matches(records) == Matches(old(records)) + if kept then [Kept(value, kind)] else []
    {
      hide Matches, Joined, Need;
      kept := Append(value, kind, 0);
      if kept {
        returnedMatches := returnedMatches + 1;
      }
    }

    method MatchedFile(absolutePath: string)
      requires Valid()
      modifies this
      ensures Valid() && matches == MatchesAfter(search, old(matches), SeenFile(absolutePath))
    {
      if !search.allows(absolutePath) {
        return;
      }
      var path := search.relative(absolutePath);
      if path in files {
        return;
      }
      RecordFile(path);
    }

    method RecordFile(path: string)
      requires Valid() && path !in files
      modifies this
      ensures Valid() && matches == old(matches) + [Kept(FileItem(path), FileRecord)]
    {
      hide Matches, Joined, Need, Greedy, Offered;
      var item := Kept(FileItem(path), FileRecord);
      OfferOne(search, matches, item);
      files := files + {path};
      total := total + 1;
      matches := matches + [item];
      if total > search.limit {
        return;
      }
      selected := selected + 1;
      var kept := AppendMatch(FileItem(path), FileRecord);
      assert Matches(records) + [] == Matches(records);
    }

    method MatchedLine(absolutePath: string, line: nat, text: string, kind: LineKind)
      requires Valid()
      modifies this
      ensures Valid() && matches == MatchesAfter(search, old(matches), SeenLine(absolutePath, line, text, kind))
    {
      hide ResultAccumulator.Valid;
      if !search.allows(absolutePath) {
        return;
      }
      if search.files {
        if kind.MatchLine? {
          MatchedFile(absolutePath);
        }
        return;
      }
      var path := search.relative(absolutePath);
      TurnTo(path);
      var record := LineItem(path, line, text, kind);
      if kind.ContextLine? {
        Wait(PendingLine(absolutePath, record));
      } else {
        TakeMatch(record);
      }
    }

    /** The first line of another file settles what still waits for the file before. */
    method TurnTo(path: string)
      requires Valid()
      modifies this
      ensures Valid() && matches == old(matches) && currentPath == Some(path)
    {
      hide Matches, Joined, Need, Greedy, Offered;
      if currentPath != Some(path) {
        FlushContexts(true, 0);
        pendingContexts := [];
        currentPath := Some(path);
        lastKeptMatch := None;
      }
    }

    /** A context line waits for the match it leads up to, or for its turn behind the last one. */
    method Wait(waiting: PendingLine)
      requires Valid() && waiting.record.LineItem?
      modifies this`pendingContexts
      ensures Valid()
    {
      hide Matches, Joined, Need, Greedy;
      if selected < search.limit {
        pendingContexts := pendingContexts + [waiting];
        if lastKeptMatch.None? {
          while |pendingContexts| > search.context
            invariant Counted()
            decreases |pendingContexts|
          {
            pendingContexts := pendingContexts[1..];
          }
        }
      } else if lastKeptMatch.Some? && waiting.record.line <= lastKeptMatch.value.line + search.context {
        pendingContexts := pendingContexts + [waiting];
      }
    }

    method TakeMatch(record: Item)
      requires Valid() && record.LineItem?
      modifies this
      ensures Valid() && matches == old(matches) + [Kept(record, MatchRecord)]
    {
      hide Matches, Joined, Need, Greedy, Offered;
      var item := Kept(record, MatchRecord);
      total := total + 1;
      OfferOne(search, matches, item);
      matches := matches + [item];
      if total <= search.limit {
        selected := selected + 1;
        KeepMatch(record);
      } else {
        FlushContexts(true, 0);
      }
    }

    /** A match within the limit: context that leads up to it goes first, leaving it room. */
    method KeepMatch(record: Item)
      requires Ledger() && PendingLines() && record.LineItem?
      modifies this`records, this`recordBytes, this`returnedMatches, this`returnedContexts, this`omittedContexts,
        this`pendingContexts, this`lastKeptMatch
      ensures Ledger() && PendingLines() && pendingContexts == []
      ensures var before := Matches(old(records));
              Matches(records) == if Need(search.sizeOf, before) + search.sizeOf(record) <= search.Room()
                                  then before + [Kept(record, MatchRecord)] else before
    {
      hide Matches, Joined, Need;
      FlushContexts(false, search.sizeOf(record) + 1);
      var kept := AppendMatch(record, MatchRecord);
      assert Matches(records) == Matches(old(records)) + if kept then [Kept(record, MatchRecord)] else [];
      if kept {
        lastKeptMatch := Some(record);
      }
    }

    /** The payload as it stands: everything but the record bytes is recomputed. */
    function Now(): Payload
      reads this
    {
      Payload(Counts(total, returnedMatches,
                     if total > returnedMatches then total - returnedMatches else 0,
                     if total > search.limit then total - search.limit else 0,
                     if selected > returnedMatches then selected - returnedMatches else 0,
                     omittedContexts, returnedContexts),
              records)
    }

    /** Without its last record the result is counted as before. */
    method DropLast()
      requires Ledger() && records != []
      modifies this`records, this`recordBytes, this`returnedMatches, this`returnedContexts, this`omittedContexts
      ensures Ledger() && records == old(records[..|records| - 1]) && returnedMatches <= old(returnedMatches)
      ensures returnedContexts + omittedContexts == old(returnedContexts + omittedContexts)
    {
      hide Matches, Joined;
      var removed := records[|records| - 1];
      PopLedger(search.sizeOf, records);
      records := records[..|records| - 1];
      recordBytes := recordBytes - (search.sizeOf(removed.value) + if |records| > 0 then 1 else 0);
      if removed.kind.ContextRecord? {
        returnedContexts := returnedContexts - 1;
        omittedContexts := omittedContexts + 1;
      } else {
        returnedMatches := returnedMatches - 1;
      }
    }

    /** Drops records from the end while the result is too large. A result that fits is left alone. */
    method TrimToFit() returns (result: Payload)
      requires Ledger()
      modifies this`records, this`recordBytes, this`returnedMatches, this`returnedContexts, this`omittedContexts
      ensures Ledger() && result == Now() && returnedMatches <= old(returnedMatches)
      ensures returnedContexts + omittedContexts == old(returnedContexts + omittedContexts)
      ensures PayloadBytes(search, result) <= search.maximumBytes || result.records == []
      ensures PayloadBytes(search, old(Now())) <= search.maximumBytes || old(records) == [] ==> result == old(Now())
    {
      hide PayloadBytes, ResultAccumulator.Ledger;
      result := Now();
      while PayloadBytes(search, result) > search.maximumBytes && |records| > 0
        invariant Ledger() && result == Now() && returnedMatches <= old(returnedMatches)
        invariant returnedContexts + omittedContexts == old(returnedContexts + omittedContexts)
        invariant PayloadBytes(search, old(Now())) <= search.maximumBytes || old(records) == [] ==> result == old(Now())
        decreases |records|
      {
        DropLast();
        result := Now();
      }
    }

    /**
     The result. With counts of at most sixteen digits no record is trimmed, match or context: the
     records are those kept before and the last context lines that fit, the matches returned are the
     greedy fill, and the result fits the budget unless not even the envelope does.
     */
    method Finish() returns (result: Payload)
      requires Valid()
      modifies this
      ensures matches == old(matches) && result == Now() && Ledger()
      ensures CountsAgree(search, result, matches)
      ensures Short(total) && Short(returnedContexts + omittedContexts) ==>
                && result.records == Flushed(search, old(records), old(pendingContexts), old(lastKeptMatch), true, 0)
                && Matches(result.records) == Greedy(search, Offered(search, matches))
                && (PayloadBytes(search, result) <= search.maximumBytes || result.records == [])
    {
      hide Matches, Joined, Envelope, Greedy, Short, CountsAgree, Offered, Flushed;
      FlushContexts(true, 0);
      ghost var full := Now();
      assert returnedMatches <= |Greedy(search, Offered(search, matches))| <= selected <= total;
      FullFits(search, full, matches, recordBytes);
      result := TrimToFit();
      CountsHold(search, result, full, matches);
    }
  }

  lemma {:induction false} EvictedCount(records: seq<Kept>, i: nat)
    requires i <= |records|
    ensures |Evicted(records, i)| + |ContextsAt(records, i)| == |records|
    ensures |Matches(records)| <= |Evicted(records, i)|
    decreases i
  {
    EvictedMatches(records, i);
    if i > 0 {
      EvictedCount(records, i - 1);
      EvictStep((item: Item) => 0, records, i - 1);
    } else {
      EvictedEnds(records);
    }
  }

  /** A result whose record bytes stay within the room fits the budget. */
  lemma {:induction false} FullFits(search: Search, full: Payload, matches: seq<Kept>, recordBytes: nat)
    requires recordBytes == Joined(search.sizeOf, full.records) && (full.records == [] || recordBytes <= search.Room())
    requires var c := full.counts;
             && c.returned <= c.total && c.omittedMatches <= c.total
             && c.byLimit <= c.total && c.byResultBytes <= c.total
    ensures Short(full.counts.total) && Short(full.counts.contextReturned + full.counts.omittedContexts) ==>
              PayloadBytes(search, full) <= search.maximumBytes || full.records == []
  {
    if Short(full.counts.total) && Short(full.counts.contextReturned + full.counts.omittedContexts) {
      EnvelopeSmall(search, full.counts);
    }
  }

  lemma {:induction false} CountsHold(search: Search, result: Payload, full: Payload, matches: seq<Kept>)
    requires Matches(full.records) == Greedy(search, Offered(search, matches))
    requires full.counts.returned == |Matches(full.records)|
    requires var c := result.counts;
             var selected := if |matches| <= search.limit then |matches| else search.limit;
             && c.total == |matches| && c.returned == |Matches(result.records)| <= full.counts.returned
             && c.returned + c.contextReturned == |result.records|
             && c.omittedMatches == (if c.total > c.returned then c.total - c.returned else 0)
             && c.byLimit == (if c.total > search.limit then c.total - search.limit else 0)
             && c.byResultBytes == (if selected > c.returned then selected - c.returned else 0)
    ensures CountsAgree(search, result, matches)
  {
    assert |Greedy(search, Offered(search, matches))| <= |Offered(search, matches)|;
    hide Matches, Greedy;
  }

  /** The counts of a result say what its records and the matches found say. */
  ghost predicate CountsAgree(search: Search, result: Payload, matches: seq<Kept>) {
    var c := result.counts;
    && c.total == |matches| && c.returned == |Matches(result.records)|
    && c.returned + c.contextReturned == |result.records|
    && c.omittedMatches == c.total - c.returned == c.byLimit + c.byResultBytes
    && c.byLimit == |matches| - |Offered(search, matches)|
  }

  lemma {:induction false} OfferOne(search: Search, matches: seq<Kept>, item: Kept)
    ensures var kept := Greedy(search, Offered(search, matches));
            var fits := Need(search.sizeOf, kept) + search.sizeOf(item.value) <= search.Room();
            Greedy(search, Offered(search, matches + [item]))
            == if |matches| < search.limit && fits then kept + [item] else kept
  {
    if |matches| < search.limit {
      assert Offered(search, matches + [item]) == matches + [item];
      assert (matches + [item])[..|matches|] == matches;
    } else {
      assert Offered(search, matches + [item]) == Offered(search, matches);
    }
  }

  lemma {:induction false} PushFacts(sizeOf: Item -> nat, records: seq<Kept>, item: Kept)
    ensures Joined(sizeOf, records + [item]) == Joined(sizeOf,
                                                       records) + (if |records| == 0 then 0 else 1) + sizeOf(item.value)
    ensures Matches(records + [item]) == Matches(records) + if item.kind.ContextRecord? then [] else [item]
    ensures Need(sizeOf, Matches(records)) <= Need(sizeOf, records)
    ensures Matches(records) + [] == Matches(records)
  {
    NeedConcat(sizeOf, records, [item]);
    NeedOne(sizeOf, item);
    MatchesConcat(records, [item]);
    MatchesOne(item);
    MatchesNeed(sizeOf, records);
  }

  lemma {:induction false} PopLedger(sizeOf: Item -> nat, records: seq<Kept>)
    requires records != []
    ensures var rest, last := records[..|records| - 1], records[|records| - 1];
            && Joined(sizeOf, records) == Joined(sizeOf, rest) + sizeOf(last.value) + (if |rest| > 0 then 1 else 0)
            && |Matches(records)| == |Matches(rest)| + if last.kind.ContextRecord? then 0 else 1
  {
  }

  // ---------------------------------------------------------------- a whole search

  /**
   What a search over these events may return: counts that agree with the matches found and, when
   they are short, the greedy fill, within the budget unless nothing at all is returned.
   */
  ghost predicate Searched(search: Search, events: seq<Event>, result: Payload) {
    && CountsAgree(search, result, AllMatches(search, events))
    && (ShortCounts(result) ==>
          && Matches(result.records) == Greedy(search, Offered(search, AllMatches(search, events)))
          && (PayloadBytes(search, result) <= search.maximumBytes || result.records == []))
  }

  predicate ShortCounts(result: Payload) {
    Short(result.counts.total) && Short(result.counts.contextReturned + result.counts.omittedContexts)
  }

  /** One search over all events: the matches returned do not depend on the context lines among them. */
  method RunSearch(search: Search, events: seq<Event>) returns (result: Payload)
    ensures Searched(search, events, result)
  {
    var accumulator := new ResultAccumulator(search);
    for i := 0 to |events|
      invariant accumulator.Valid() && fresh(accumulator) && accumulator.search == search
      invariant accumulator.matches == AllMatches(search, events[..i])
    {
      assert events[..i + 1][..i] == events[..i];
      match events[i]
      case SeenFile(path) => accumulator.MatchedFile(path);
      case SeenLine(path, line, text, kind) => accumulator.MatchedLine(path, line, text, kind);
    }
    assert events[..|events|] == events;
    result := accumulator.Finish();
  }

  /** The events that are not context lines. */
  function WithoutContext(events: seq<Event>): seq<Event> {
    if events == [] then []
    else
      var last := events[|events| - 1];
      WithoutContext(events[..|events| - 1]) + if last.SeenLine? && last.kind.ContextLine? then [] else [last]
  }

  lemma {:induction false} SameMatches(search: Search, events: seq<Event>)
    ensures AllMatches(search, WithoutContext(events)) == AllMatches(search, events)
    decreases |events|
  {
    if events != [] {
      var before, last := events[..|events| - 1], events[|events| - 1];
      SameMatches(search, before);
      if last.SeenLine? && last.kind.ContextLine? {
        assert WithoutContext(events) == WithoutContext(before);
      } else {
        assert WithoutContext(events) == WithoutContext(before) + [last];
        assert (WithoutContext(before) + [last])[..|WithoutContext(before)|] == WithoutContext(before);
      }
    }
  }

  /** A search with its context lines and one without them return the same matches and count as many. */
  lemma {:induction false} ContextNeverCosts(search: Search, events: seq<Event>, result: Payload, bare: Payload)
    requires Searched(search, events, result) && Searched(search, WithoutContext(events), bare)
    requires ShortCounts(result) && ShortCounts(bare)
    ensures Matches(result.records) == Matches(bare.records)
    ensures result.counts.total == bare.counts.total && result.counts.returned == bare.counts.returned
  {
    hide Matches, Greedy, Offered, AllMatches, PayloadBytes;
    SameMatches(search, events);
  }

  /** The greedy fill stays within the room, and skips a match only when it does not fit after those kept. */
  lemma {:induction false} GreedyFits(search: Search, offered: seq<Kept>)
    ensures Greedy(search, offered) != [] ==> Joined(search.sizeOf, Greedy(search, offered)) <= search.Room()
    decreases |offered|
  {
    if offered != [] {
      var before, last := Greedy(search, offered[..|offered| - 1]), offered[|offered| - 1];
      GreedyFits(search, offered[..|offered| - 1]);
      NeedConcat(search.sizeOf, before, [last]);
      NeedOne(search.sizeOf, last);
    }
  }

  /** No eviction over the first `stop` records or fewer makes room. */
  ghost predicate NoRoom(search: Search, records: seq<Kept>, stop: nat, size: nat)
    requires stop <= |records|
  {
    forall i: nat :: i <= stop ==> Need(search.sizeOf, Evicted(records, i)) + size > search.Room()
  }

  /** The search for evictions: its totals are right, and nothing it has gone through makes room. */
  ghost predicate Evicting(search: Search, records: seq<Kept>, stop: nat, evictions: seq<nat>, bytes: nat, count: nat,
                           size: nat) {
    Projected(search.sizeOf, records, stop, evictions, bytes, count) && NoRoom(search, records, stop, size)
  }

  lemma {:induction false} StartEvicting(search: Search, records: seq<Kept>, size: nat)
    requires Need(search.sizeOf, records) + size > search.Room()
    ensures Evicting(search, records, 0, [], Joined(search.sizeOf, records), |records|, size)
  {
    ProjectedStart(search.sizeOf, records);
    hide Need, Evicted;
  }

  lemma {:induction false} KeepEvicting(search: Search, records: seq<Kept>, i: nat, evictions: seq<nat>, bytes: nat,
                                        count: nat, size: nat)
    requires i < |records| && Evicting(search, records, i, evictions, bytes, count, size)
    ensures if records[i].kind.ContextRecord? then
              var less := search.sizeOf(records[i].value) + if count > 1 then 1 else 0;
              && less <= bytes && count > 0
              && var left, more := bytes - less, evictions + [i];
                 if left + (if count == 1 then 0 else 1) + size <= search.Room() then
                   && more == ContextsAt(records, i + 1) && left == Joined(search.sizeOf, Evicted(records, i + 1))
                   && Need(search.sizeOf, Evicted(records, i + 1)) + size <= search.Room()
                   && NoRoom(search, records, i, size)
                 else Evicting(search, records, i + 1, more, left, count - 1, size)
            else Evicting(search, records, i + 1, evictions, bytes, count, size)
  {
    ProjectedStep(search.sizeOf, records, i, evictions, bytes, count);
    hide Need, Evicted, ContextsAt, Joined, Projected;
    if records[i].kind.ContextRecord? {
      var less := search.sizeOf(records[i].value) + if count > 1 then 1 else 0;
      ProjectedIs(search.sizeOf, records, i + 1, evictions + [i], bytes - less, count - 1);
    }
  }

  lemma {:induction false} NothingEvicts(search: Search, records: seq<Kept>, evictions: seq<nat>, bytes: nat,
                                         count: nat, size: nat)
    requires Evicting(search, records, |records|, evictions, bytes, count, size)
    ensures Need(search.sizeOf, Matches(records)) + size > search.Room()
  {
    EvictedEnds(records);
    hide Need, Evicted;
  }

  /** The running totals of an eviction over the first `i` records. */
  ghost predicate Projected(sizeOf: Item -> nat, records: seq<Kept>, i: nat, evictions: seq<nat>, bytes: nat,
                            count: nat) {
    && i <= |records| && evictions == ContextsAt(records, i)
    && count == |Evicted(records, i)| && bytes == Joined(sizeOf, Evicted(records, i))
  }

  lemma {:induction false} ProjectedStart(sizeOf: Item -> nat, records: seq<Kept>)
    ensures Projected(sizeOf, records, 0, [], Joined(sizeOf, records), |records|)
    ensures Evicted(records, 0) == records
  {
    EvictedEnds(records);
  }

  lemma {:induction false} ProjectedStep(sizeOf: Item -> nat, records: seq<Kept>, i: nat, evictions: seq<nat>,
                                         bytes: nat, count: nat)
    requires i < |records| && Projected(sizeOf, records, i, evictions, bytes, count)
    ensures if records[i].kind.ContextRecord? then
              var less := sizeOf(records[i].value) + if count > 1 then 1 else 0;
              && less <= bytes && count > 0
              && Projected(sizeOf, records, i + 1, evictions + [i], bytes - less, count - 1)
            else
              && Projected(sizeOf, records, i + 1, evictions, bytes, count)
              && Evicted(records, i + 1) == Evicted(records, i)
  {
    EvictStep(sizeOf, records, i);
    ContextsNext(records, i);
    hide Evicted, ContextsAt, Joined, Need;
    var before, after := Evicted(records, i), Evicted(records, i + 1);
    assert Need(sizeOf, before) == Joined(sizeOf, before) + if before == [] then 0 else 1;
    assert Need(sizeOf, after) == Joined(sizeOf, after) + if after == [] then 0 else 1;
    assert after == [] ==> Joined(sizeOf, after) == 0 by { JoinedNothing(sizeOf); }
  }

  lemma {:induction false} JoinedNothing(sizeOf: Item -> nat)
    ensures Joined(sizeOf, []) == 0
  {
  }

  lemma {:induction false} ProjectedIs(sizeOf: Item -> nat, records: seq<Kept>, i: nat, evictions: seq<nat>, bytes: nat,
                                       count: nat)
    requires Projected(sizeOf, records, i, evictions, bytes, count)
    ensures i <= |records| && evictions == ContextsAt(records, i) && bytes == Joined(sizeOf, Evicted(records, i))
    ensures bytes + (if count == 0 then 0 else 1) == Need(sizeOf, Evicted(records, i))
  {
  }

  lemma {:induction false} ContextsNext(records: seq<Kept>, i: nat)
    requires i < |records|
    ensures ContextsAt(records, i + 1) == ContextsAt(records, i) + if records[i].kind.ContextRecord? then [i] else []
  {
  }
}
