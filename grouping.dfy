/** Grouping as pandas does it for `groupby(...).agg("sum")` and
    `pivot_table(aggfunc="sum")`: the distinct keys in sorted order, and per key
    the sum of the amounts filed under it. */
module Grouping {
  import opened Order

  /** A group label: the tuple of the grouping columns' values. */
  type Key = seq<string>

  /** One record's contribution: its group label and the amount it adds. */
  datatype Entry = Entry(key: Key, amount: int)

  predicate Sorted(ks: seq<Key>) {
    forall i, j :: 0 <= i < j < |ks| ==> KeyLess(ks[i], ks[j])
  }

  predicate Distinct(ks: seq<Key>) {
    forall i, j :: 0 <= i < j < |ks| ==> ks[i] != ks[j]
  }

  lemma SortedIsDistinct(ks: seq<Key>)
    requires Sorted(ks)
    ensures Distinct(ks)
  {
    forall i, j | 0 <= i < j < |ks|
      ensures ks[i] != ks[j]
    {
      KeyLessIrreflexive(ks[i]);
    }
  }

  /** Adds `k` to a sorted list of distinct keys, at its place, unless present. */
  function Insert(ks: seq<Key>, k: Key): (r: seq<Key>)
    requires Sorted(ks)
    ensures Sorted(r)
    ensures forall x :: x in r <==> x in ks || x == k
  {
    if ks == [] then [k]
    else if k == ks[0] then ks
    else if KeyLess(k, ks[0]) then
      assert Sorted([k] + ks) by {
        forall j | 0 <= j < |ks|
          ensures KeyLess(k, ks[j])
        {
          if j > 0 {
            KeyLessTransitive(k, ks[0], ks[j]);
          }
        }
      }
      [k] + ks
    else
      var rest := Insert(ks[1..], k);
      assert Sorted([ks[0]] + rest) by {
        KeyLessTotal(k, ks[0]);
        forall j | 0 <= j < |rest|
          ensures KeyLess(ks[0], rest[j])
        {
          assert rest[j] in ks[1..] || rest[j] == k;
        }
      }
      [ks[0]] + rest
  }

  /** The distinct keys of `keys`, sorted. */
  function SortedKeys(keys: seq<Key>): (r: seq<Key>)
    ensures Sorted(r)
    ensures forall x :: x in r <==> x in keys
  {
    if keys == [] then []
    else
      var n := |keys| - 1;
      assert keys == keys[..n] + [keys[n]];
      Insert(SortedKeys(keys[..n]), keys[n])
  }

  function KeysOf(es: seq<Entry>): (ks: seq<Key>)
    ensures |ks| == |es| && forall i :: 0 <= i < |es| ==> ks[i] == es[i].key
  {
    if es == [] then [] else [es[0].key] + KeysOf(es[1..])
  }

  lemma {:induction false} KeysOfConcat(a: seq<Entry>, b: seq<Entry>)
    ensures KeysOf(a + b) == KeysOf(a) + KeysOf(b)
  {
    if a != [] {
      assert (a + b)[1..] == a[1..] + b;
      KeysOfConcat(a[1..], b);
    }
  }

  /** Sum of the amounts filed under `k`; 0 when there are none. */
  function SumFor(es: seq<Entry>, k: Key): int {
    if es == [] then 0 else (if es[0].key == k then es[0].amount else 0) + SumFor(es[1..], k)
  }

  lemma SumForCons(e: Entry, rest: seq<Entry>, k: Key)
    ensures SumFor([e] + rest, k) == (if e.key == k then e.amount else 0) + SumFor(rest, k)
  {
    assert ([e] + rest)[1..] == rest;
  }

  /** Sum of all amounts. */
  function Total(es: seq<Entry>): int {
    if es == [] then 0 else es[0].amount + Total(es[1..])
  }

  /** Sum of the per-key sums over the keys `ks`. */
  function SumOver(ks: seq<Key>, es: seq<Entry>): int {
    if ks == [] then 0 else SumFor(es, ks[0]) + SumOver(ks[1..], es)
  }

  /** A key no entry is filed under sums to 0. */
  lemma {:induction false} SumForAbsent(es: seq<Entry>, k: Key)
    requires forall i :: 0 <= i < |es| ==> es[i].key != k
    ensures SumFor(es, k) == 0
  {
    if es != [] {
      SumForAbsent(es[1..], k);
    }
  }

  lemma {:induction false} SumOverCons(ks: seq<Key>, e: Entry, rest: seq<Entry>)
    requires Distinct(ks)
    ensures SumOver(ks, [e] + rest) == (if e.key in ks then e.amount else 0) + SumOver(ks, rest)
  {
    if ks != [] {
      assert ([e] + rest)[1..] == rest;
      SumOverCons(ks[1..], e, rest);
      if e.key == ks[0] {
        assert e.key !in ks[1..];
      }
    }
  }

  /** Adding up the per-key sums over keys that cover every entry once gives
      the sum of all amounts. */
  lemma {:induction false} SumOverPartition(ks: seq<Key>, es: seq<Entry>)
    requires Distinct(ks)
    requires forall i :: 0 <= i < |es| ==> es[i].key in ks
    ensures SumOver(ks, es) == Total(es)
  {
    if es == [] {
      EmptySumOver(ks);
    } else {
      assert es == [es[0]] + es[1..];
      SumOverCons(ks, es[0], es[1..]);
      SumOverPartition(ks, es[1..]);
    }
  }

  lemma {:induction false} EmptySumOver(ks: seq<Key>)
    ensures SumOver(ks, []) == 0
  {
    if ks != [] {
      EmptySumOver(ks[1..]);
    }
  }
}
