/**
 Reading server-sent events from a character stream that arrives in chunks (compare section 9.2.6 of
 the WHATWG HTML Living Standard; lines end in LF or CRLF only).

 `EventReader.Feed` searches again only from three characters before the new text. `Records` cuts
 the whole stream at its leftmost blank lines; the reader is proved to give exactly those records.
 */
module EventStreams {
  import opened Basics

  // ---------------------------------------------------------------- separators

  /** The length of one line ending at `i`: LF, or CR LF; 0 if there is none. */
  function Eol(s: string, i: nat): (length: nat)
    ensures length <= 2 && i + length <= |s| + (if length == 0 then i else 0)
    ensures length > 0 ==> i + length <= |s|
  {
    if i < |s| && s[i] == '\n' then 1
    else if i + 1 < |s| && s[i] == '\r' && s[i + 1] == '\n' then 2
    else 0
  }

  /** The length of a separator at `i`: two line endings in a row; 0 if there is none. */
  function SeparatorAt(s: string, i: nat): (length: nat)
    ensures length > 0 ==> 2 <= length <= 4 && i + length <= |s|
  {
    var first := Eol(s, i);
    if first == 0 || Eol(s, i + first) == 0 then 0 else first + Eol(s, i + first)
  }

  /** The first separator at or after `from`, or the length of the text. */
  function FindSeparator(s: string, from: nat): (at: nat)
    requires from <= |s|
    ensures from <= at <= |s|
    ensures at < |s| ==> SeparatorAt(s, at) > 0
    ensures forall k :: from <= k < at ==> SeparatorAt(s, k) == 0
    decreases |s| - from
  {
    if from == |s| || SeparatorAt(s, from) > 0 then from else FindSeparator(s, from + 1)
  }

  /** The whole stream cut at its leftmost separators; the last record is what no separator ends. */
  function Records(s: string): (records: seq<string>)
    ensures |records| >= 1
    decreases |s|
  {
    var at := FindSeparator(s, 0);
    if at == |s| then [s] else [s[..at]] + Records(s[at + SeparatorAt(s, at)..])
  }

  // ---------------------------------------------------------------- more text may follow

  lemma {:induction false} FindUnique(s: string, from: nat, at: nat)
    requires from <= at <= |s|
    requires forall k :: from <= k < at ==> SeparatorAt(s, k) == 0
    requires at < |s| ==> SeparatorAt(s, at) > 0
    ensures FindSeparator(s, from) == at
    decreases at - from
  {
    if from < at {
      FindUnique(s, from + 1, at);
    }
  }

  /** A separator within a text stays one when more follows, and none appears before it. */
  lemma {:induction false} FindGrown(s: string, more: string)
    requires FindSeparator(s, 0) < |s|
    ensures var at := FindSeparator(s, 0);
            FindSeparator(s + more, 0) == at && SeparatorAt(s + more, at) == SeparatorAt(s, at)
  {
    var at := FindSeparator(s, 0);
    var all := s + more;
    forall k | 0 <= k < at ensures SeparatorAt(all, k) == 0 {
      assert SeparatorAt(s, k) == 0;
      assert forall j :: 0 <= j < |s| ==> all[j] == s[j];
    }
    FindUnique(all, 0, at);
  }

  lemma {:induction false} RecordsGrown(s: string, more: string)
    requires FindSeparator(s, 0) < |s|
    ensures var at := FindSeparator(s, 0);
            Records(s + more) == [s[..at]] + Records(s[at + SeparatorAt(s, at)..] + more)
  {
    hide SeparatorAt, FindSeparator;
    FindGrown(s, more);
    var at := FindSeparator(s, 0);
    var end := at + SeparatorAt(s, at);
    assert (s + more)[..at] == s[..at];
    assert (s + more)[end..] == s[end..] + more;
  }

  /** Without a separator in the old text, a search can skip all but its last three characters. */
  lemma {:induction false} ScanWindow(scanned: string, more: string)
    requires FindSeparator(scanned, 0) == |scanned|
    ensures var from := if |scanned| < 3 then 0 else |scanned| - 3;
            FindSeparator(scanned + more, from) == FindSeparator(scanned + more, 0)
  {
    var from := if |scanned| < 3 then 0 else |scanned| - 3;
    var all := scanned + more;
    var at := FindSeparator(all, from);
    forall k | 0 <= k < from ensures SeparatorAt(all, k) == 0 {
      assert SeparatorAt(scanned, k) == 0;
      assert forall j :: 0 <= j < |scanned| ==> all[j] == scanned[j];
    }
    FindUnique(all, 0, at);
  }

  // ---------------------------------------------------------------- one record

  function FindEol(s: string, from: nat): (at: nat)
    requires from <= |s|
    ensures from <= at <= |s|
    ensures at < |s| ==> Eol(s, at) > 0
    decreases |s| - from
  {
    if from == |s| || Eol(s, from) > 0 then from else FindEol(s, from + 1)
  }

  /** `split` at line endings. */
  function Lines(s: string): (lines: seq<string>)
    ensures |lines| >= 1
    decreases |s|
  {
    var at := FindEol(s, 0);
    if at == |s| then [s] else [s[..at]] + Lines(s[at + Eol(s, at)..])
  }

  function Marked(line: string): (data: Option<string>) {
    if "data:" <= line then Some(if |line| > 5 && line[5] == ' ' then line[6..] else line[5..]) else None
  }

  function DataOf(lines: seq<string>): (data: seq<string>) {
    if lines == [] then []
    else (match Marked(lines[0]) case None => [] case Some(d) => [d]) + DataOf(lines[1..])
  }

  function Join(parts: seq<string>): string {
    if parts == [] then ""
    else if |parts| == 1 then parts[0]
    else parts[0] + "\n" + Join(parts[1..])
  }

  /** The payload of a record, if it has data lines. */
  function Payload(record: string): Option<string> {
    var data := DataOf(Lines(record));
    if data == [] then None else Some(Join(data))
  }

  /** Decoding is a parameter; None is an invalid frame. */
  type Decoder<!F> = string -> Option<F>

  /** What a subscriber receives: frames in order, up to the first invalid one. */
  datatype Delivery<F> = Delivery(frames: seq<F>, failed: bool)

  function Delivered<F>(decode: Decoder<F>, records: seq<string>): Delivery<F> {
    if records == [] then Delivery([], false)
    else match Payload(records[0])
      case None => Delivered(decode, records[1..])
      case Some(data) =>
        match decode(data)
        case None => Delivery([], true)
        case Some(frame) =>
          var rest := Delivered(decode, records[1..]);
          Delivery([frame] + rest.frames, rest.failed)
  }

  lemma {:induction false} DeliveredConcat<F>(decode: Decoder<F>, a: seq<string>, b: seq<string>)
    ensures Delivered(decode, a + b)
         == if Delivered(decode, a).failed then Delivered(decode, a)
            else Delivery(Delivered(decode, a).frames + Delivered(decode, b).frames, Delivered(decode, b).failed)
    decreases |a|
  {
    hide Payload;
    if a == [] {
      assert a + b == b;
    } else {
      assert (a + b)[0] == a[0] && (a + b)[1..] == a[1..] + b;
      DeliveredConcat(decode, a[1..], b);
    }
  }

  // ---------------------------------------------------------------- the reader

  function Concat(chunks: seq<string>): string {
    if chunks == [] then "" else chunks[0] + Concat(chunks[1..])
  }

  class EventReader {
    var buffered: string
    var scanFrom: nat

    ghost predicate Valid()
      reads this
    {
      && FindSeparator(buffered, 0) == |buffered|
      && scanFrom == if |buffered| < 3 then 0 else |buffered| - 3
    }

    constructor ()
      ensures Valid() && buffered == ""
    {
      buffered, scanFrom := "", 0;
    }

    /** The records a chunk completes; whatever follows, they are the next ones of the stream. */
    method Feed(chunk: string) returns (records: seq<string>)
      requires Valid()
      modifies this
      ensures Valid()
      ensures records + [buffered] == Records(old(buffered) + chunk)
      ensures forall more: string :: Records(old(buffered) + chunk + more) == records + Records(buffered + more)
    {
      hide SeparatorAt, FindSeparator, Records;
      ghost var whole := buffered + chunk;
      ScanWindow(buffered, chunk);
      records := [];
      buffered := buffered + chunk;
      var boundary := FindSeparator(buffered, scanFrom);
      assert forall more: string :: [] + Records(buffered + more) == Records(buffered + more);
      while boundary < |buffered|
        invariant boundary == FindSeparator(buffered, 0)
        invariant forall more: string :: Records(whole + more) == records + Records(buffered + more)
        decreases |buffered|
      {
        ghost var before := buffered;
        var record := buffered[..boundary];
        buffered := buffered[boundary + SeparatorAt(buffered, boundary)..];
        forall more: string ensures Records(whole + more) == records + [record] + Records(buffered + more) {
          RecordsGrown(before, more);
        }
        records := records + [record];
        SeparatorTakes(before, boundary);
        boundary := FindSeparator(buffered, 0);
      }
      scanFrom := if |buffered| < 3 then 0 else |buffered| - 3;
      LastRecord(buffered);
      assert whole + "" == whole && buffered + "" == buffered;
    }
  }

  lemma {:induction false} SeparatorTakes(s: string, at: nat)
    requires at < |s| && at == FindSeparator(s, 0)
    ensures SeparatorAt(s, at) > 0
  {
  }

  lemma {:induction false} LastRecord(s: string)
    requires FindSeparator(s, 0) == |s|
    ensures Records(s) == [s]
  {
  }

  lemma {:induction false} DataNext(lines: seq<string>, i: nat, data: seq<string>)
    requires i < |lines|
    ensures var marked := Marked(lines[i]);
            data + DataOf(lines[i..])
              == (if marked.Some? then data + [marked.value] else data) + DataOf(lines[i + 1..])
  {
    hide Marked;
    assert lines[i..][1..] == lines[i + 1..];
  }

  lemma {:induction false} NoMoreData(lines: seq<string>)
    ensures DataOf(lines[|lines|..]) == []
  {
  }

  /** `parseFrame`, by a loop over the lines. */
  method ParseRecord(record: string) returns (payload: Option<string>)
    ensures payload == Payload(record)
  {
    hide Lines, Marked, Join, DataOf;
    var lines := Lines(record);
    var data := [];
    assert lines[0..] == lines && [] + DataOf(lines) == DataOf(lines);
    for i := 0 to |lines|
      invariant data + DataOf(lines[i..]) == DataOf(lines)
    {
      DataNext(lines, i, data);
      var marked := Marked(lines[i]);
      if marked.Some? {
        data := data + [marked.value];
      }
    }
    NoMoreData(lines);
    assert data + [] == data;
    payload := if data == [] then None else Some(Join(data));
  }

  method Deliver<F>(decode: Decoder<F>, records: seq<string>) returns (frames: seq<F>, failed: bool)
    ensures Delivery(frames, failed) == Delivered(decode, records)
  {
    hide Payload;
    frames, failed := [], false;
    assert records[0..] == records;
    ghost var whole := Delivered(decode, records);
    assert [] + whole.frames == whole.frames;
    for i := 0 to |records|
      invariant !failed
      invariant var rest := Delivered(decode, records[i..]); whole == Delivery(frames + rest.frames, rest.failed)
    {
      assert records[i..][1..] == records[i + 1..];
      ghost var rest := Delivered(decode, records[i + 1..]);
      var payload := ParseRecord(records[i]);
      if payload.Some? {
        var frame := decode(payload.value);
        if frame.None? {
          assert frames + [] == frames;
          return frames, true;
        }
        assert frames + ([frame.value] + rest.frames) == frames + [frame.value] + rest.frames;
        frames := frames + [frame.value];
      }
    }
    assert frames + [] == frames;
  }

  /**
   `sessionSubscribe`: whatever the chunks, the subscriber receives the frames of the whole stream.
   `flush` is what the character decoder still gives when the body ends.
   */
  method Subscribe<F>(decode: Decoder<F>, chunks: seq<string>, flush: string) returns (frames: seq<F>, failed: bool)
    ensures Delivery(frames, failed) == Delivered(decode, Records(Concat(chunks) + flush))
  {
    hide Records, Delivered, FindSeparator, Payload;
    var reader := new EventReader();
    frames, failed := [], false;
    ghost var whole := Concat(chunks) + flush;
    assert chunks[0..] == chunks && "" + whole == whole;
    ghost var records: seq<string> := [];
    assert Delivered(decode, records) == Delivery([], false) by { NothingDelivered(decode); }
    assert [] + Records(whole) == Records(whole);
    for i := 0 to |chunks|
      invariant reader.Valid() && fresh(reader)
      invariant Records(whole) == records + Records(reader.buffered + (Concat(chunks[i..]) + flush))
      invariant Delivered(decode, records) == Delivery(frames, false)
    {
      assert chunks[i..][1..] == chunks[i + 1..];
      ghost var more := Concat(chunks[i + 1..]) + flush;
      assert reader.buffered + ((chunks[i] + Concat(chunks[i + 1..])) + flush) == reader.buffered + chunks[i] + more;
      var some := reader.Feed(chunks[i]);
      var received, stop := Deliver(decode, some);
      DeliveredConcat(decode, records, some);
      DeliveredConcat(decode, records + some, Records(reader.buffered + more));
      assert records + (some + Records(reader.buffered + more)) == records + some + Records(reader.buffered + more);
      records := records + some;
      frames := frames + received;
      if stop {
        return frames, true;
      }
    }
    assert Concat(chunks[|chunks|..]) + flush == flush;
    var some := reader.Feed(flush);
    var received, stop := Deliver(decode, some + [reader.buffered]);
    DeliveredConcat(decode, records, some + [reader.buffered]);
    frames, failed := frames + received, stop;
  }

  lemma {:induction false} NothingDelivered<F>(decode: Decoder<F>)
    ensures Delivered(decode, []) == Delivery([], false)
  {
  }

  // ---------------------------------------------------------------- events written as data lines

  predicate Plain(line: string) {
    forall i :: 0 <= i < |line| ==> line[i] != '\n' && line[i] != '\r'
  }

  /** An event: its lines and which line ending it is written with. */
  datatype Event = Event(lines: seq<string>, crlf: bool) {
    predicate Valid() { lines != [] && forall i :: 0 <= i < |lines| ==> Plain(lines[i]) }

    function Ending(): (eol: string)
      ensures Eol(eol, 0) == |eol| > 0
    {
      if crlf then "\r\n" else "\n"
    }
  }

  function Body(lines: seq<string>, eol: string): string {
    if lines == [] then ""
    else if |lines| == 1 then "data: " + lines[0]
    else "data: " + lines[0] + eol + Body(lines[1..], eol)
  }

  function Written(events: seq<Event>): string {
    if events == [] then ""
    else Body(events[0].lines, events[0].Ending()) + events[0].Ending() + events[0].Ending() + Written(events[1..])
  }

  function Texts(events: seq<Event>): (texts: seq<string>)
    ensures |texts| == |events|
  {
    if events == [] then [] else [Join(events[0].lines)] + Texts(events[1..])
  }

  lemma {:induction false} EolAfter(plain: string, rest: string, i: nat)
    requires Plain(plain) && i < |plain|
    ensures Eol(plain + rest, i) == 0 && SeparatorAt(plain + rest, i) == 0
  {
  }

  lemma {:induction false} EolShift(before: string, rest: string, i: nat)
    ensures Eol(before + rest, |before| + i) == Eol(rest, i)
    ensures SeparatorAt(before + rest, |before| + i) == SeparatorAt(rest, i)
  {
    var all := before + rest;
    assert forall k :: 0 <= k < |rest| ==> all[|before| + k] == rest[k];
  }

  lemma {:induction false} LoneEnding(eol: string, rest: string, i: nat)
    requires eol == "\n" || eol == "\r\n"
    requires i < |eol| && rest != "" && rest[0] == 'd'
    ensures SeparatorAt(eol + rest, i) == 0
  {
    assert (eol + rest)[|eol|] == 'd';
  }

  /** Inside a body no line ending is followed by another. */
  lemma {:induction false} BodyUncut(lines: seq<string>, crlf: bool, rest: string, i: nat)
    requires Event(lines, crlf).Valid()
    requires var eol := Event(lines, crlf).Ending(); i < |Body(lines, eol)|
    ensures SeparatorAt(Body(lines, Event(lines, crlf).Ending()) + rest, i) == 0
    decreases |lines|
  {
    hide SeparatorAt, Plain;
    var eol := Event(lines, crlf).Ending();
    var first := "data: " + lines[0];
    MarkedLine(lines[0]);
    if |lines| == 1 {
      EolAfter(first, rest, i);
    } else {
      var later := Body(lines[1..], eol);
      var tail := eol + (later + rest);
      assert Body(lines, eol) + rest == first + tail;
      if i < |first| {
        EolAfter(first, tail, i);
      } else {
        EolShift(first, tail, i - |first|);
        if i < |first| + |eol| {
          LoneEnding(eol, later + rest, i - |first|);
        } else {
          EolShift(eol, later + rest, i - |first| - |eol|);
          BodyUncut(lines[1..], crlf, rest, i - |first| - |eol|);
        }
      }
    }
  }

  lemma {:induction false} FirstEvent(event: Event, rest: string)
    requires event.Valid()
    ensures var eol := event.Ending(); var body := Body(event.lines, eol);
            var all := body + eol + eol + rest;
            && FindSeparator(all, 0) == |body| && |body| < |all|
            && all[..|body|] == body && all[|body| + SeparatorAt(all, |body|)..] == rest
  {
    var eol := event.Ending();
    var body := Body(event.lines, eol);
    var all := body + eol + eol + rest;
    var tail := eol + eol + rest;
    assert all == body + tail;
    forall k | 0 <= k < |body| ensures SeparatorAt(all, k) == 0 {
      BodyUncut(event.lines, event.crlf, tail, k);
    }
    EolShift(body, tail, 0);
    assert SeparatorAt(tail, 0) == 2 * |eol|;
    FindUnique(all, 0, |body|);
  }

  lemma {:induction false} PlainLine(plain: string, rest: string, i: nat)
    requires Plain(plain) && i <= |plain| && (rest == "" || Eol(rest, 0) > 0)
    ensures FindEol(plain + rest, i) == |plain|
    decreases |plain| - i
  {
    if i < |plain| {
      EolAfter(plain, rest, i);
      PlainLine(plain, rest, i + 1);
    } else {
      EolShift(plain, rest, 0);
    }
  }

  lemma {:induction false} FirstLine(plain: string, eol: string, rest: string)
    requires Plain(plain) && Eol(eol, 0) == |eol| > 0
    ensures Lines(plain + eol + rest) == [plain] + Lines(rest)
  {
    var s := plain + (eol + rest);
    assert s == plain + eol + rest;
    assert Eol(eol + rest, 0) == |eol|;
    PlainLine(plain, eol + rest, 0);
    EolShift(plain, eol + rest, 0);
    assert s[..|plain|] == plain && s[|plain| + |eol|..] == rest;
  }

  lemma {:induction false} OnlyLine(plain: string)
    requires Plain(plain)
    ensures Lines(plain) == [plain]
  {
    PlainLine(plain, "", 0);
    assert plain + "" == plain;
  }

  lemma {:induction false} MarkedLine(line: string)
    requires Plain(line)
    ensures Plain("data: " + line) && Marked("data: " + line) == Some(line)
  {
  }

  /** The lines of a body are its lines marked as data. */
  lemma {:induction false} BodyData(lines: seq<string>, crlf: bool)
    requires Event(lines, crlf).Valid()
    ensures DataOf(Lines(Body(lines, Event(lines, crlf).Ending()))) == lines
    decreases |lines|
  {
    hide Lines, Marked, Plain;
    var eol := Event(lines, crlf).Ending();
    var first := "data: " + lines[0];
    MarkedLine(lines[0]);
    if |lines| == 1 {
      OnlyLine(first);
      assert [first][1..] == [];
    } else {
      var later := Body(lines[1..], eol);
      FirstLine(first, eol, later);
      BodyData(lines[1..], crlf);
      assert ([first] + Lines(later))[1..] == Lines(later);
      assert [lines[0]] + lines[1..] == lines;
    }
  }

  lemma {:induction false} FirstRecord(events: seq<Event>)
    requires events != [] && events[0].Valid()
    ensures Records(Written(events)) == [Body(events[0].lines, events[0].Ending())] + Records(Written(events[1..]))
  {
    FirstEvent(events[0], Written(events[1..]));
    hide FindSeparator, SeparatorAt, Body;
  }

  lemma {:induction false} NothingWritten()
    ensures Records(Written([])) == [""]
  {
    LastRecord("");
  }

  lemma {:induction false} FirstPayload(event: Event)
    requires event.Valid()
    ensures Payload(Body(event.lines, event.Ending())) == Some(Join(event.lines))
  {
    hide Lines, Body;
    BodyData(event.lines, event.crlf);
  }

  /** Nothing but the payload texts comes out of a stream of written events. */
  lemma {:induction false} WrittenRecords(events: seq<Event>)
    requires forall i :: 0 <= i < |events| ==> events[i].Valid()
    ensures |Records(Written(events))| == |events| + 1
    ensures Records(Written(events))[|events|] == ""
    ensures forall i :: 0 <= i < |events| ==> Payload(Records(Written(events))[i]) == Some(Texts(events)[i])
    decreases |events|
  {
    hide SeparatorAt, Eol, FindSeparator, Lines, Body, Written, Records, Payload, Event.Valid, Join, DataOf;
    if events == [] {
      NothingWritten();
    } else {
      FirstRecord(events);
      FirstPayload(events[0]);
      WrittenRecords(events[1..]);
      forall i | 0 <= i < |events| ensures Payload(Records(Written(events))[i]) == Some(Texts(events)[i]) {
        if i > 0 {
          assert Records(Written(events))[i] == Records(Written(events[1..]))[i - 1];
        }
      }
    }
  }

  function Decoded<F>(decode: Decoder<F>, texts: seq<string>): Delivery<F> {
    if texts == [] then Delivery([], false)
    else match decode(texts[0])
      case None => Delivery([], true)
      case Some(frame) =>
        var rest := Decoded(decode, texts[1..]);
        Delivery([frame] + rest.frames, rest.failed)
  }

  lemma {:induction false} DeliveredTexts<F>(decode: Decoder<F>, records: seq<string>, texts: seq<string>)
    requires |records| == |texts| + 1 && records[|texts|] == ""
    requires forall i :: 0 <= i < |texts| ==> Payload(records[i]) == Some(texts[i])
    ensures Delivered(decode, records) == Decoded(decode, texts)
    decreases |texts|
  {
    if texts == [] {
      assert records == [""];
      assert Lines("") == [""];
      assert DataOf([""]) == [];
    } else {
      hide Payload;
      DeliveredTexts(decode, records[1..], texts[1..]);
    }
  }

  /** Round trip: however a stream of written events is cut, the subscriber receives their texts, decoded. */
  lemma {:induction false} WrittenDelivered<F>(decode: Decoder<F>, events: seq<Event>, chunks: seq<string>,
                                               flush: string)
    requires forall i :: 0 <= i < |events| ==> events[i].Valid()
    requires Concat(chunks) + flush == Written(events)
    ensures Delivered(decode, Records(Concat(chunks) + flush)) == Decoded(decode, Texts(events))
  {
    hide Records, Payload;
    WrittenRecords(events);
    DeliveredTexts(decode, Records(Written(events)), Texts(events));
  }
}
