/**
 Redundant indexes over one list. An index maps a key to the entries with that key, in list order;
 pushing and removing keep it in step with the list it is redundant to.
 */
module Indexes {
  import opened Basics

  function Lookup<K, V>(index: map<K, seq<V>>, key: K): seq<V> {
    if key in index then index[key] else []
  }

  function Pushed<K, V>(index: map<K, seq<V>>, key: K, value: V): map<K, seq<V>> {
    index[key := Lookup(index, key) + [value]]
  }

  /** The entries of a list under a key. An element without a key is in no entry. */
  function Entries<K(==), T, V>(list: seq<T>, keyOf: T -> Option<K>, show: T -> V, key: K): (entries: seq<V>)
    ensures |entries| <= |list|
  {
    if list == [] then []
    else
      var last := list[|list| - 1];
      Entries(list[..|list| - 1], keyOf, show, key) + if keyOf(last) == Some(key) then [show(last)] else []
  }

  ghost predicate Agrees<K(!new), T, V>(index: map<K, seq<V>>, list: seq<T>, keyOf: T -> Option<K>, show: T -> V) {
    forall key: K :: Lookup(index, key) == Entries(list, keyOf, show, key)
  }

  lemma {:induction false} EntriesConcat<K, T, V>(a: seq<T>, b: seq<T>, keyOf: T -> Option<K>, show: T -> V, key: K)
    ensures Entries(a + b, keyOf, show, key) == Entries(a, keyOf, show, key) + Entries(b, keyOf, show, key)
    decreases |b|
  {
    if b == [] {
      assert a + b == a;
    } else {
      EntriesConcat(a, b[..|b| - 1], keyOf, show, key);
      assert (a + b)[..|a + b| - 1] == a + b[..|b| - 1];
    }
  }

  lemma {:induction false} EntriesOne<K, T, V>(t: T, keyOf: T -> Option<K>, show: T -> V, key: K)
    ensures Entries([t], keyOf, show, key) == if keyOf(t) == Some(key) then [show(t)] else []
  {
    assert [t][..0] == [];
  }

  lemma {:induction false} PushAgrees<K(!new), T, V>(index: map<K, seq<V>>, list: seq<T>, keyOf: T -> Option<K>,
                                                     show: T -> V, t: T)
    requires Agrees(index, list, keyOf, show)
    ensures Agrees(if keyOf(t).Some? then Pushed(index, keyOf(t).value, show(t)) else index, list + [t], keyOf, show)
  {
    var index' := if keyOf(t).Some? then Pushed(index, keyOf(t).value, show(t)) else index;
    forall key: K ensures Lookup(index', key) == Entries(list + [t], keyOf, show, key) {
      EntriesConcat(list, [t], keyOf, show, key);
      EntriesOne(t, keyOf, show, key);
    }
  }

  function Without<T>(list: seq<T>, at: nat): (rest: seq<T>)
    requires at < |list|
    ensures |rest| == |list| - 1
  {
    list[..at] + list[at + 1..]
  }

  /** Removing an element removes its own entry, and nothing under any other key. */
  lemma {:induction false} EntriesWithout<K, T, V>(list: seq<T>, at: nat, keyOf: T -> Option<K>, show: T -> V, key: K)
    requires at < |list|
    ensures var entries := Entries(list, keyOf, show, key);
            var rank := |Entries(list[..at], keyOf, show, key)|;
            if keyOf(list[at]) == Some(key) then
              && rank < |entries| && entries[rank] == show(list[at])
              && Entries(Without(list, at), keyOf, show, key) == Without(entries, rank)
            else Entries(Without(list, at), keyOf, show, key) == entries
  {
    EntryAt(list, at, keyOf, show, key);
    EntriesConcat(list[..at], list[at + 1..], keyOf, show, key);
  }

  lemma {:induction false} EntryAt<K, T, V>(list: seq<T>, at: nat, keyOf: T -> Option<K>, show: T -> V, key: K)
    requires at < |list|
    ensures Entries(list, keyOf, show, key)
         == Entries(list[..at], keyOf, show, key)
            + (if keyOf(list[at]) == Some(key) then [show(list[at])] else [])
            + Entries(list[at + 1..], keyOf, show, key)
  {
    assert list == list[..at] + [list[at]] + list[at + 1..];
    EntriesConcat(list[..at] + [list[at]], list[at + 1..], keyOf, show, key);
    EntriesConcat(list[..at], [list[at]], keyOf, show, key);
    EntriesOne(list[at], keyOf, show, key);
  }

  /** Every entry comes from an element of the list with that key. */
  lemma {:induction false} EntrySource<K, T, V>(list: seq<T>, keyOf: T -> Option<K>, show: T -> V, key: K, rank: nat)
    returns (at: nat)
    requires rank < |Entries(list, keyOf, show, key)|
    ensures at < |list| && keyOf(list[at]) == Some(key) && show(list[at]) == Entries(list, keyOf, show, key)[rank]
    ensures |Entries(list[..at], keyOf, show, key)| == rank
    decreases |list|
  {
    var n := |list| - 1;
    var before := Entries(list[..n], keyOf, show, key);
    if rank < |before| {
      at := EntrySource(list[..n], keyOf, show, key, rank);
      assert list[..n][..at] == list[..at];
    } else {
      at := n;
    }
  }

  /** Positions of `show` values: first and last, as `findIndex` and `lastIndexOf` give them. */
  function FirstIndex<V(==)>(values: seq<V>, value: V): (at: Option<nat>)
    ensures at.Some? ==> at.value < |values| && values[at.value] == value && value !in values[..at.value]
    ensures at.None? ==> value !in values
  {
    if values == [] then None
    else if values[0] == value then Some(0)
    else match FirstIndex(values[1..], value)
      case None => None
      case Some(i) => Some(i + 1)
  }

  function LastIndex<V(==)>(values: seq<V>, value: V): (at: Option<nat>)
    ensures at.Some? ==> at.value < |values| && values[at.value] == value && value !in values[at.value + 1..]
    ensures at.None? ==> value !in values
  {
    if values == [] then None
    else if values[|values| - 1] == value then Some(|values| - 1)
    else
      var rest := LastIndex(values[..|values| - 1], value);
      assert rest.Some? ==>
          values[rest.value + 1..] == values[..|values| - 1][rest.value + 1..] + [values[|values| - 1]];
      rest
  }

  lemma {:induction false} LastIndexUnique<V>(values: seq<V>, value: V, at: nat)
    requires at < |values| && values[at] == value && value !in values[at + 1..]
    ensures LastIndex(values, value) == Some(at)
    decreases |values|
  {
    var n := |values| - 1;
    if at < n {
      assert values[at + 1..][n - at - 1] == values[n];
      assert values[..n][at + 1..] == values[at + 1..][..n - at - 1];
      LastIndexUnique(values[..n], value, at);
    }
  }

  lemma {:induction false} EntriesUnfold<K, T, V>(list: seq<T>, keyOf: T -> Option<K>, show: T -> V, key: K)
    ensures Entries(list, keyOf, show, key)
         == if list == [] then []
            else Entries(list[..|list| - 1], keyOf, show, key)
                 + if keyOf(list[|list| - 1]) == Some(key) then [show(list[|list| - 1])] else []
  {
  }

  lemma {:induction false} CountLast<V>(values: seq<V>, last: V, value: V)
    ensures multiset(values + [last])[value] == multiset(values)[value] + if last == value then 1 else 0
  {
  }

  /** When every element showing a value has one key, that key's entry holds the value as often as the list. */
  lemma {:induction false} EntriesCount<K, T, V>(list: seq<T>, keyOf: T -> Option<K>, show: T -> V, key: K,
                                                 shown: seq<V>, value: V)
    requires |shown| == |list| && forall i :: 0 <= i < |list| ==> shown[i] == show(list[i])
    requires forall i :: 0 <= i < |list| && show(list[i]) == value ==> keyOf(list[i]) == Some(key)
    ensures multiset(Entries(list, keyOf, show, key))[value] == multiset(shown)[value]
    decreases |list|
  {
    hide Entries;
    EntriesUnfold(list, keyOf, show, key);
    if list == [] {
      assert shown == [];
    } else {
      var n := |list| - 1;
      var rest, last := list[..n], shown[n];
      EntriesCount(rest, keyOf, show, key, shown[..n], value);
      assert shown == shown[..n] + [last];
      CountLast(shown[..n], last, value);
      CountLast(Entries(rest, keyOf, show, key), last, value);
    }
  }
}
