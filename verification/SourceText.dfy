/** Physical lines of a body text: where each line feed falls and what an append leaves in place. */
module SourceText {

  /** A line's half-open source range, without its line feed. */
  datatype Span = Span(start: nat, end: nat)

  /** First line feed at or after `i`, or the end of the text. */
  function LineEnd(text: string, i: nat): (e: nat)
    requires i <= |text|
    ensures i <= e <= |text|
    ensures e < |text| ==> text[e] == '\n'
    ensures forall k :: i <= k < e ==> text[k] != '\n'
    decreases |text| - i
  {
    if i == |text| || text[i] == '\n' then i else LineEnd(text, i + 1)
  }

  /** The lines from `start` on; a text without a line feed is one line, also when empty. */
  function Spans(text: string, start: nat): (spans: seq<Span>)
    requires start <= |text|
    ensures |spans| >= 1
    decreases |text| - start
  {
    var e := LineEnd(text, start);
    if e == |text| then [Span(start, e)] else [Span(start, e)] + Spans(text, e + 1)
  }

  /** Line `i` holds no line feed and is followed by one exactly when another line follows it. */
  ghost predicate LineAt(text: string, spans: seq<Span>, i: nat)
    requires i < |spans|
  {
    var span := spans[i];
    && span.start <= span.end <= |text|
    && (forall k :: span.start <= k < span.end ==> text[k] != '\n')
    && (if i + 1 == |spans| then span.end == |text|
        else span.end < |text| && text[span.end] == '\n' && spans[i + 1].start == span.end + 1)
  }

  /** Lines partition the text: each starts one past the line feed that ends its predecessor. */
  ghost predicate Chained(text: string, spans: seq<Span>, start: nat) {
    && |spans| >= 1
    && spans[0].start == start
    && forall i :: 0 <= i < |spans| ==> LineAt(text, spans, i)
  }

  lemma {:induction false} SpansChained(text: string, start: nat)
    requires start <= |text|
    ensures Chained(text, Spans(text, start), start)
    decreases |text| - start
  {
    var e := LineEnd(text, start);
    var all := Spans(text, start);
    if e < |text| {
      SpansChained(text, e + 1);
      var rest := Spans(text, e + 1);
      assert all == [Span(start, e)] + rest;
      forall i | 0 <= i < |all| ensures LineAt(text, all, i) {
        if i > 0 {
          assert LineAt(text, rest, i - 1);
        }
      }
    }
  }

  lemma {:induction false} ChainedAscending(text: string, spans: seq<Span>, start: nat, i: nat, j: nat)
    requires Chained(text, spans, start)
    requires i < j < |spans|
    ensures spans[i].end < spans[j].start
    decreases j
  {
    assert LineAt(text, spans, j - 1) && LineAt(text, spans, i);
    if i + 1 < j {
      ChainedAscending(text, spans, start, i, j - 1);
    }
  }

  lemma {:induction false} LineEndUnique(text: string, i: nat, e: nat)
    requires i <= e <= |text|
    requires forall k :: i <= k < e ==> text[k] != '\n'
    requires e < |text| ==> text[e] == '\n'
    ensures LineEnd(text, i) == e
  {
  }

  lemma {:induction false} FirstSpan(text: string, start: nat)
    requires start <= |text|
    ensures var e := LineEnd(text, start);
            && start <= e <= |text|
            && Spans(text, start) == if e == |text| then [Span(start, e)] else [Span(start, e)] + Spans(text, e + 1)
  {
    hide LineEnd;
  }

  lemma {:induction false} LastReplaced(first: Span, rest: seq<Span>, again: seq<Span>)
    requires rest != []
    ensures var spans := [first] + rest;
            && spans[|spans| - 1] == rest[|rest| - 1]
            && spans[..|spans| - 1] + again == [first] + (rest[..|rest| - 1] + again)
  {
  }

  /** An append keeps every line but the last and re-reads from the start of the last line. */
  lemma {:induction false} SpansOfAppend(text: string, suffix: string, start: nat)
    requires start <= |text|
    ensures var old' := Spans(text, start);
            old'[|old'| - 1].start <= |text|
            && Spans(text + suffix, start) ==
                 old'[..|old'| - 1] + Spans(text + suffix, old'[|old'| - 1].start)
    decreases |text| - start
  {
    hide LineEnd, Spans;
    var e := LineEnd(text, start);
    FirstSpan(text, start);
    if e < |text| {
      LineEndUnique(text + suffix, start, e);
      FirstSpan(text + suffix, start);
      SpansOfAppend(text, suffix, e + 1);
      var rest := Spans(text, e + 1);
      LastReplaced(Span(start, e), rest, Spans(text + suffix, rest[|rest| - 1].start));
    }
  }

  /** The raw text of a line. */
  function Slice(text: string, span: Span): (raw: string)
    requires span.start <= span.end <= |text|
    ensures |raw| == span.end - span.start
  {
    text[span.start..span.end]
  }
}
