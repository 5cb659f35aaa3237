/** The editor: a bounded text with a cursor, and a sticky column for runs of vertical moves. */
module Editors {
  import opened Basics
  import opened EditorLayout

  const MAX_BYTES: nat := 64 * 1024

  /** UTF-8 length. A `char` is one Unicode scalar. */
  function ScalarBytes(c: char): (n: nat)
    ensures 1 <= n <= 4
  {
    if c < '\U{80}' then 1 else if c < '\U{800}' then 2 else if c < '\U{10000}' then 3 else 4
  }

  function ByteLength(text: string): nat {
    if text == "" then 0 else ByteLength(text[..|text| - 1]) + ScalarBytes(text[|text| - 1])
  }

  lemma {:induction false} ByteLengthConcat(a: string, b: string)
    ensures ByteLength(a + b) == ByteLength(a) + ByteLength(b)
    decreases |b|
  {
    if b == "" {
      assert a + b == a;
    } else {
      assert (a + b)[..|a + b| - 1] == a + b[..|b| - 1];
      ByteLengthConcat(a, b[..|b| - 1]);
    }
  }

  predicate Acceptable(text: string) {
    '\0' !in text && ByteLength(text) <= MAX_BYTES
  }

  function Spliced(value: string, at: nat, text: string): string
    requires at <= |value|
  {
    value[..at] + text + value[at..]
  }

  function Removed(value: string, at: nat): string
    requires at < |value|
  {
    value[..at] + value[at + 1..]
  }

  lemma {:induction false} SplicedBytes(value: string, at: nat, text: string)
    requires at <= |value|
    ensures ByteLength(Spliced(value, at, text)) == ByteLength(value) + ByteLength(text)
    ensures '\0' in Spliced(value, at, text) <==> '\0' in value || '\0' in text
  {
    assert value == value[..at] + value[at..];
    ByteLengthConcat(value[..at] + text, value[at..]);
    ByteLengthConcat(value[..at], text);
    ByteLengthConcat(value[..at], value[at..]);
  }

  lemma {:induction false} RemovedBytes(value: string, at: nat)
    requires at < |value|
    ensures ByteLength(Removed(value, at)) + ScalarBytes(value[at]) == ByteLength(value)
    ensures '\0' in Removed(value, at) ==> '\0' in value
  {
    var c := [value[at]];
    assert Spliced(Removed(value, at), at, c) == value;
    SplicedBytes(Removed(value, at), at, c);
    assert c[..0] == "";
    assert ByteLength(c) == ScalarBytes(value[at]);
  }

  /** Taking back, one by one, the last `count` scalars before the cursor. */
  function Backspaced(value: string, cursor: nat, count: nat): string
    requires count <= cursor <= |value|
    decreases count
  {
    if count == 0 then value else Backspaced(Removed(value, cursor - 1), cursor - 1, count - 1)
  }

  /** As many backspaces as were inserted give the text back. */
  lemma {:induction false} BackspacesUndoInsert(value: string, at: nat, text: string)
    requires at <= |value|
    ensures Backspaced(Spliced(value, at, text), at + |text|, |text|) == value
    decreases |text|
  {
    if text == "" {
      assert Spliced(value, at, text) == value;
    } else {
      var shorter := text[..|text| - 1];
      assert Removed(Spliced(value, at, text), at + |text| - 1) == Spliced(value, at, shorter);
      BackspacesUndoInsert(value, at, shorter);
    }
  }

  class TuiEditor {
    var value: string
    var cursor: nat
    var preferredColumn: Option<nat>

    ghost predicate Valid()
      reads this
    {
      cursor <= |value| && Acceptable(value)
    }

    constructor ()
      ensures Valid() && value == "" && cursor == 0 && preferredColumn == None
    {
      value, cursor, preferredColumn := "", 0, None;
    }

    method SetSnapshot(text: string, cursorScalar: int) returns (ok: bool)
      requires Valid()
      modifies this
      ensures Valid() && ok == (Acceptable(text) && 0 <= cursorScalar <= |text|)
      ensures if ok then value == text && cursor == cursorScalar && preferredColumn == None
              else value == old(value) && cursor == old(cursor) && preferredColumn == old(preferredColumn)
    {
      ok := Acceptable(text) && 0 <= cursorScalar <= |text|;
      if ok {
        value, cursor, preferredColumn := text, cursorScalar, None;
      }
    }

    method Insert(text: string) returns (ok: bool)
      requires Valid()
      modifies this
      ensures Valid() && ok == (Acceptable(text) && ByteLength(old(value)) + ByteLength(text) <= MAX_BYTES)
      ensures if ok then
                value == Spliced(old(value), old(cursor),
                                 text) && cursor == old(cursor) + |text| && preferredColumn == None
              else value == old(value) && cursor == old(cursor) && preferredColumn == old(preferredColumn)
    {
      if !Acceptable(text) || ByteLength(value) + ByteLength(text) > MAX_BYTES {
        return false;
      }
      SplicedBytes(value, cursor, text);
      value := value[..cursor] + text + value[cursor..];
      cursor := cursor + |text|;
      preferredColumn := None;
      ok := true;
    }

    method Backspace() returns (ok: bool)
      requires Valid()
      modifies this
      ensures Valid() && ok == (old(cursor) > 0)
      ensures if ok then
                value == Removed(old(value), old(cursor) - 1) && cursor == old(cursor) - 1 && preferredColumn == None
              else value == old(value) && cursor == old(cursor) && preferredColumn == old(preferredColumn)
    {
      if cursor == 0 {
        return false;
      }
      RemovedBytes(value, cursor - 1);
      value := value[..cursor - 1] + value[cursor..];
      cursor := cursor - 1;
      preferredColumn := None;
      ok := true;
    }

    /** To the start of the line: past the nearest line feed before the cursor. */
    method Home() returns (changed: bool)
      requires Valid()
      modifies this`cursor, this`preferredColumn
      ensures Valid() && preferredColumn == None && changed == (cursor != old(cursor))
      ensures cursor <= old(cursor) && '\n' !in value[cursor..old(cursor)]
      ensures cursor > 0 ==> value[cursor - 1] == '\n'
    {
      var start: nat := cursor;
      while start > 0 && value[start - 1] != '\n'
        invariant start <= cursor && '\n' !in value[start..cursor]
      {
        assert value[start - 1..cursor] == [value[start - 1]] + value[start..cursor];
        start := start - 1;
      }
      changed := start != cursor;
      cursor, preferredColumn := start, None;
    }

    method End() returns (changed: bool)
      requires Valid()
      modifies this`cursor, this`preferredColumn
      ensures Valid() && preferredColumn == None && changed == (cursor != old(cursor))
      ensures old(cursor) <= cursor && '\n' !in value[old(cursor)..cursor]
      ensures cursor < |value| ==> value[cursor] == '\n'
    {
      var finish: nat := cursor;
      while finish < |value| && value[finish] != '\n'
        invariant cursor <= finish <= |value| && '\n' !in value[cursor..finish]
      {
        assert value[cursor..finish + 1] == value[cursor..finish] + [value[finish]];
        finish := finish + 1;
      }
      changed := finish != cursor;
      cursor, preferredColumn := finish, None;
    }

    /** A vertical move: -1 up, 1 down. A failed move changes nothing, not even the column. */
    method MoveVertical(g: Cutter, direction: int, columns: nat) returns (ok: bool)
      requires Valid() && Cuts(g)
      modifies this`cursor, this`preferredColumn
      ensures Valid()
      ensures var moved := Moved(g(value), columns, old(CursorState(cursor, preferredColumn)), direction);
              && ok == moved.Some?
              && CursorState(cursor, preferredColumn)
                 == if ok then moved.value else old(CursorState(cursor, preferredColumn))
    {
      var moved := MoveEditorCursorVertically(g, value, cursor, columns, direction, preferredColumn);
      if moved.None? {
        return false;
      }
      MovedInside(g, value, columns, CursorState(cursor, preferredColumn), direction);
      cursor, preferredColumn := moved.value.cursor, moved.value.preferred;
      ok := true;
    }
  }

  /** The cursor stays within the text. */
  lemma {:induction false} MovedInside(g: Cutter, text: string, columns: nat, s: CursorState, direction: int)
    requires Cuts(g) && Moved(g(text), columns, s, direction).Some?
    ensures Moved(g(text), columns, s, direction).value.cursor <= |text|
  {
    var segs := g(text);
    assert WellCut(segs) && Off(segs, |segs|) == |text|;
    hide Cuts, Moved;
    MoveLands(segs, columns, s, direction);
    OffGrows(segs, SegmentAt(segs, Moved(segs, columns, s, direction).value.cursor, 0), |segs|);
  }
}
