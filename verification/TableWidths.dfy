/** Column widths of a table: natural widths, shrunk one cell at a time from the widest column. */
module TableWidths {
  import opened Basics

  function Sum(widths: seq<nat>): nat {
    if widths == [] then 0 else Sum(widths[..|widths| - 1]) + widths[|widths| - 1]
  }

  lemma {:induction false} SumOneLess(widths: seq<nat>, i: nat)
    requires i < |widths| && widths[i] > 0
    ensures Sum(widths[i := widths[i] - 1]) == Sum(widths) - 1
    decreases |widths|
  {
    var shrunk := widths[i := widths[i] - 1];
    var n := |widths| - 1;
    if i < n {
      SumOneLess(widths[..n], i);
      assert shrunk[..n] == widths[..n][i := widths[i] - 1];
    } else {
      assert shrunk[..n] == widths[..n];
    }
  }

  lemma {:induction false} SumOfThrees(widths: seq<nat>)
    requires forall i :: 0 <= i < |widths| ==> widths[i] == 3
    ensures Sum(widths) == 3 * |widths|
    decreases |widths|
  {
    if widths != [] {
      SumOfThrees(widths[..|widths| - 1]);
    }
  }

  /** Cells left for the columns of a table once borders and padding are drawn. */
  function Available(columns: nat, width: nat): int {
    (if width < 1 then 1 else width) - (3 * columns + 1)
  }

  /** A column that gave up cells is within one of the widest. */
  ghost predicate Level(natural: seq<nat>, widths: seq<nat>) {
    && |widths| == |natural|
    && (forall i :: 0 <= i < |widths| ==> 3 <= widths[i] <= natural[i])
    && (forall i, j :: 0 <= i < |widths| && 0 <= j < |widths| && widths[i] < natural[i] ==> widths[j] <= widths[i] + 1)
  }

  /** A column of the greatest width over three, leftmost first; None if there is no such column. */
  method Widest(widths: array<nat>) returns (widest: Option<nat>)
    requires forall i :: 0 <= i < widths.Length ==> widths[i] >= 3
    ensures match widest
            case None => forall i :: 0 <= i < widths.Length ==> widths[i] == 3
            case Some(w) =>
              && w < widths.Length && widths[w] > 3
              && (forall i :: 0 <= i < widths.Length ==> widths[i] <= widths[w])
              && (forall i :: 0 <= i < w ==> widths[i] < widths[w])
  {
    widest := None;
    var widestValue := 3;
    for index := 0 to widths.Length
      invariant widest.None? ==> widestValue == 3
      invariant widest.Some? ==> widest.value < index && widths[widest.value] == widestValue > 3
      invariant forall i :: 0 <= i < index ==> widths[i] <= widestValue
      invariant widest.Some? ==> forall i :: 0 <= i < widest.value ==> widths[i] < widestValue
    {
      if widths[index] > widestValue {
        widest, widestValue := Some(index), widths[index];
      }
    }
  }

  /**
   Defined exactly when every column can have three cells. The widths then take all the room the
   natural widths want, no more than is available, and what is given up comes off the top.
   */
  method TableColumns(natural: seq<nat>, width: nat) returns (result: Option<seq<nat>>)
    requires forall i :: 0 <= i < |natural| ==> natural[i] >= 3
    ensures result.Some? <==> Available(|natural|, width) >= 3 * |natural|
    ensures result.Some? ==>
              && Level(natural, result.value)
              && Sum(result.value) == if Sum(natural) <= Available(|natural|, width) then Sum(natural)
                                      else Available(|natural|, width)
  {
    hide Sum, Level, Available;
    var available := Available(|natural|, width);
    if available < 3 * |natural| {
      return None;
    }
    var widths := new nat[|natural|](i requires 0 <= i < |natural| => natural[i]);
    assert widths[..] == natural;
    LevelItself(natural);
    while Sum(widths[..]) > available
      invariant widths.Length == |natural| && Level(natural, widths[..])
      invariant Sum(widths[..]) <= Sum(natural)
      invariant Sum(natural) <= available ==> Sum(widths[..]) == Sum(natural)
      invariant Sum(widths[..]) >= available || Sum(natural) <= available
      decreases Sum(widths[..])
    {
      ghost var before := widths[..];
      LevelLeast(natural, before);
      assert forall i :: 0 <= i < widths.Length ==> widths[i] == before[i];
      var widest := Widest(widths);
      if widest.None? {
        forall i | 0 <= i < |before| ensures before[i] == 3 {
          assert widths[i] == before[i];
        }
        SumOfThrees(before);
        break;
      }
      SumOneLess(before, widest.value);
      ShrinkKeepsLevel(natural, before, widest.value);
      widths[widest.value] := widths[widest.value] - 1;
      assert widths[..] == before[widest.value := before[widest.value] - 1];
    }
    result := Some(widths[..]);
  }

  lemma {:induction false} LevelItself(natural: seq<nat>)
    requires forall i :: 0 <= i < |natural| ==> natural[i] >= 3
    ensures Level(natural, natural)
  {
  }

  lemma {:induction false} LevelLeast(natural: seq<nat>, widths: seq<nat>)
    requires Level(natural, widths)
    ensures |widths| == |natural| && forall i :: 0 <= i < |widths| ==> widths[i] >= 3
  {
  }

  /** Taking a cell from the widest column keeps the columns level. */
  lemma {:induction false} ShrinkKeepsLevel(natural: seq<nat>, widths: seq<nat>, w: nat)
    requires Level(natural, widths) && w < |widths| && widths[w] > 3
    requires forall i :: 0 <= i < |widths| ==> widths[i] <= widths[w]
    ensures Level(natural, widths[w := widths[w] - 1])
  {
  }

  /** Level widths of one total give each column the same up to one cell. */
  lemma {:induction false} LevelClose(natural: seq<nat>, a: seq<nat>, b: seq<nat>, i: nat)
    requires Level(natural, a) && Level(natural, b) && Sum(a) == Sum(b) && i < |natural|
    ensures a[i] <= b[i] + 1
  {
    if a[i] > b[i] + 1 {
      forall j | 0 <= j < |natural| ensures b[j] <= a[j] {
        assert b[j] <= b[i] + 1;
      }
      SumLess(b, a, i);
    }
  }

  lemma {:induction false} SumLess(a: seq<nat>, b: seq<nat>, i: nat)
    requires |a| == |b| && i < |a| && a[i] < b[i] && forall j :: 0 <= j < |a| ==> a[j] <= b[j]
    ensures Sum(a) < Sum(b)
    decreases |a|
  {
    var n := |a| - 1;
    if i < n {
      SumLess(a[..n], b[..n], i);
    } else {
      SumMore(a[..n], b[..n]);
    }
  }

  lemma {:induction false} SumMore(a: seq<nat>, b: seq<nat>)
    requires |a| == |b| && forall j :: 0 <= j < |a| ==> a[j] <= b[j]
    ensures Sum(a) <= Sum(b)
    decreases |a|
  {
    if a != [] {
      SumMore(a[..|a| - 1], b[..|b| - 1]);
    }
  }
}
