/**
 * The script's lookup tables are Python dicts keyed by atom labels. Their
 * iteration order (insertion order) decides which operation the extent
 * computation picks and the order in which shapes are drawn, so a table is
 * modelled as its entries together with its keys in insertion order.
 *
 * This module also states what the two kinds of filling loop in the script
 * produce from a sequence of (key, value) pairs: `d[k] = v` for every pair
 * (last write wins), and `d[k].append(v)` (one list per key).
 */
module Dicts {
  import opened Seqs

  datatype Dict<V> = Dict(order: seq<string>, entries: map<string, V>) {

    /** Every key is listed exactly once in `order`, and nothing else is. */
    ghost predicate Valid() {
      && (forall i, j | 0 <= i < j < |order| :: order[i] != order[j])
      && (forall k :: k in entries <==> k in order)
    }

    /** Every key listed in `order` has an entry: what iterating over the dict needs. */
    ghost predicate Listed() {
      forall i | 0 <= i < |order| :: order[i] in entries
    }

    /** A well-formed dict can be iterated over. */
    lemma ValidListed()
      requires Valid()
      ensures Listed()
    {
    }

    /** `d[k] = v`: a new key goes last; an existing key keeps its place and takes the new value. */
    function Put(k: string, v: V): Dict<V> {
      Dict(if k in entries then order else order + [k], entries[k := v])
    }
  }

  /** `d[k] = v` keeps every key listed exactly once. */
  lemma PutValid<V>(d: Dict<V>, k: string, v: V)
    requires d.Valid()
    ensures d.Put(k, v).Valid()
  {
  }

  /** `dict()`. */
  function Empty<V>(): (d: Dict<V>)
    ensures d.Valid() && d.entries == map[]
  {
    Dict([], map[])
  }

  /** The dict after `d[k] = v` for every pair, in order. */
  ghost function Build<V>(pairs: seq<(string, V)>): Dict<V>
    decreases |pairs|
  {
    if pairs == [] then Empty()
    else
      var n := |pairs| - 1;
      Build(pairs[..n]).Put(pairs[n].0, pairs[n].1)
  }

  /** One more pair is one more `d[k] = v`. */
  lemma BuildSnoc<V>(pairs: seq<(string, V)>, p: (string, V))
    ensures Build(pairs + [p]) == Build(pairs).Put(p.0, p.1)
  {
    assert (pairs + [p])[..|pairs|] == pairs;
  }

  lemma {:induction false} BuildValid<V>(pairs: seq<(string, V)>)
    ensures Build(pairs).Valid()
    decreases |pairs|
  {
    if pairs != [] {
      var n := |pairs| - 1;
      BuildValid(pairs[..n]);
      PutValid(Build(pairs[..n]), pairs[n].0, pairs[n].1);
    }
  }

  /** The keys of the dict are exactly the keys of the pairs. */
  lemma {:induction false} BuildKeys<V>(pairs: seq<(string, V)>)
    ensures forall k :: k in Build(pairs).entries <==> exists i | 0 <= i < |pairs| :: pairs[i].0 == k
    decreases |pairs|
  {
    if pairs != [] {
      var n := |pairs| - 1;
      var pre := pairs[..n];
      BuildKeys(pre);
      forall k ensures k in Build(pairs).entries <==> exists i | 0 <= i < |pairs| :: pairs[i].0 == k {
        if k in Build(pre).entries {
          var i :| 0 <= i < n && pre[i].0 == k;
          assert pairs[i].0 == k;
        } else if k != pairs[n].0 {
          forall i | 0 <= i < |pairs| ensures pairs[i].0 != k {
            if i < n {
              assert pre[i] == pairs[i];
            }
          }
        }
      }
    }
  }

  /** Last write wins: a key holds the value of the last pair with that key. */
  lemma {:induction false} BuildLastWriteWins<V>(pairs: seq<(string, V)>, i: nat)
    requires i < |pairs|
    requires forall j | i < j < |pairs| :: pairs[j].0 != pairs[i].0
    ensures pairs[i].0 in Build(pairs).entries && Build(pairs).entries[pairs[i].0] == pairs[i].1
    decreases |pairs|
  {
    var n := |pairs| - 1;
    var pre := pairs[..n];
    var d := Build(pre);
    assert Build(pairs) == d.Put(pairs[n].0, pairs[n].1);
    if i < n {
      assert pre[i] == pairs[i];
      assert pairs[n].0 != pairs[i].0;
      forall j | i < j < n ensures pre[j].0 != pre[i].0 {
        assert pre[j] == pairs[j];
      }
      BuildLastWriteWins(pre, i);
    }
  }

  /** The position of the first pair with key `k`, or `|pairs|` when there is none. */
  ghost function FirstIndex<V>(pairs: seq<(string, V)>, k: string): (r: nat)
    ensures r <= |pairs|
    ensures r < |pairs| ==> pairs[r].0 == k
    ensures forall j | 0 <= j < r :: pairs[j].0 != k
    decreases |pairs|
  {
    if pairs == [] then 0
    else if pairs[0].0 == k then 0
    else 1 + FirstIndex(pairs[1..], k)
  }

  lemma {:induction false} FirstIndexSnoc<V>(pre: seq<(string, V)>, p: (string, V), k: string)
    ensures FirstIndex(pre + [p], k) ==
      if FirstIndex(pre, k) < |pre| then FirstIndex(pre, k)
      else if p.0 == k then |pre|
      else |pre| + 1
    decreases |pre|
  {
    if pre != [] {
      assert (pre + [p])[1..] == pre[1..] + [p];
      FirstIndexSnoc(pre[1..], p, k);
    }
  }

  /** A key that occurs at position `i` first occurs no later than `i`. */
  lemma FirstIndexAtMost<V>(pairs: seq<(string, V)>, k: string, i: nat)
    requires i < |pairs| && pairs[i].0 == k
    ensures FirstIndex(pairs, k) <= i
  {
  }

  /** A key already met keeps its first position when a pair is added. */
  lemma FirstIndexKept<V>(pre: seq<(string, V)>, p: (string, V), key: string)
    requires exists i | 0 <= i < |pre| :: pre[i].0 == key
    ensures FirstIndex(pre + [p], key) == FirstIndex(pre, key) < |pre|
  {
    var i :| 0 <= i < |pre| && pre[i].0 == key;
    FirstIndexAtMost(pre, key, i);
    FirstIndexSnoc(pre, p, key);
  }

  /** Insertion order: the keys are listed in the order in which they first occur. */
  lemma {:induction false} BuildKeyOrder<V>(pairs: seq<(string, V)>, a: nat, b: nat)
    requires a < b < |Build(pairs).order|
    ensures FirstIndex(pairs, Build(pairs).order[a]) < FirstIndex(pairs, Build(pairs).order[b]) < |pairs|
    decreases |pairs|
  {
    var n := |pairs| - 1;
    var pre := pairs[..n];
    assert pairs == pre + [pairs[n]];
    var d := Build(pre);
    var k := pairs[n].0;
    assert Build(pairs) == d.Put(k, pairs[n].1);
    BuildKeys(pre);
    BuildValid(pre);
    var order := Build(pairs).order;
    assert order == if k in d.entries then d.order else d.order + [k];
    assert order[a] == d.order[a] && d.order[a] in d.entries;
    FirstIndexKept(pre, pairs[n], d.order[a]);
    if b < |d.order| {
      assert order[b] == d.order[b] && d.order[b] in d.entries;
      FirstIndexKept(pre, pairs[n], d.order[b]);
      BuildKeyOrder(pre, a, b);
    } else {
      assert order[b] == k && k !in d.entries;
      forall i | 0 <= i < n ensures pre[i].0 != k {
        assert pre[i].0 in d.entries;
      }
      FirstIndexSnoc(pre, pairs[n], k);
    }
  }

  /** `if not (k in d.keys()): d[k] = []` followed by `d[k].append(x)`. */
  function Append(d: Dict<seq<int>>, k: string, x: int): (r: Dict<seq<int>>)
    ensures forall k' | k' in d.entries :: k' in r.entries && d.entries[k'] <= r.entries[k']
  {
    d.Put(k, (if k in d.entries then d.entries[k] else []) + [x])
  }

  /** Creating the empty list first and then appending to it is the same `Append`. */
  lemma AppendInTwoSteps(d: Dict<seq<int>>, k: string, x: int, d1: Dict<seq<int>>)
    requires d1 == if k in d.entries then d else d.Put(k, [])
    ensures k in d1.entries && d1.Put(k, d1.entries[k] + [x]) == Append(d, k, x)
  {
    if k !in d.entries {
      assert d1.entries[k := [x]] == d.entries[k := [x]];
    }
  }

  /** The dict of lists after appending every pair's value to its key's list, in order. */
  ghost function BuildLists(pairs: seq<(string, int)>): Dict<seq<int>>
    decreases |pairs|
  {
    if pairs == [] then Empty()
    else
      var n := |pairs| - 1;
      Append(BuildLists(pairs[..n]), pairs[n].0, pairs[n].1)
  }

  /** One more pair appends its value to its key's list. */
  lemma BuildListsSnoc(pairs: seq<(string, int)>, p: (string, int))
    ensures BuildLists(pairs + [p]) == Append(BuildLists(pairs), p.0, p.1)
  {
    assert (pairs + [p])[..|pairs|] == pairs;
  }

  /** Appending or overwriting, the keys and their order are the same. */
  lemma {:induction false} BuildListsKeys(pairs: seq<(string, int)>)
    ensures BuildLists(pairs).order == Build(pairs).order
    ensures BuildLists(pairs).entries.Keys == Build(pairs).entries.Keys
    decreases |pairs|
  {
    if pairs != [] {
      BuildListsKeys(pairs[..|pairs| - 1]);
    }
  }

  /** The values of the pairs with key `k`, in their order. */
  ghost function ValuesOf(pairs: seq<(string, int)>, k: string): seq<int>
    decreases |pairs|
  {
    if pairs == [] then []
    else (if pairs[0].0 == k then [pairs[0].1] else []) + ValuesOf(pairs[1..], k)
  }

  lemma {:induction false} ValuesOfSnoc(pre: seq<(string, int)>, p: (string, int), k: string)
    ensures ValuesOf(pre + [p], k) == ValuesOf(pre, k) + if p.0 == k then [p.1] else []
    decreases |pre|
  {
    if pre != [] {
      assert (pre + [p])[1..] == pre[1..] + [p];
      ValuesOfSnoc(pre[1..], p, k);
    }
  }

  lemma {:induction false} ValuesOfAbsent(pairs: seq<(string, int)>, k: string)
    requires forall i | 0 <= i < |pairs| :: pairs[i].0 != k
    ensures ValuesOf(pairs, k) == []
    decreases |pairs|
  {
    if pairs != [] {
      ValuesOfAbsent(pairs[1..], k);
    }
  }

  /** Each key's list holds the values of that key's pairs, in their order. */
  lemma {:induction false} BuildListsValues(pairs: seq<(string, int)>)
    ensures forall k | k in BuildLists(pairs).entries :: BuildLists(pairs).entries[k] == ValuesOf(pairs, k)
    decreases |pairs|
  {
    if pairs != [] {
      var n := |pairs| - 1;
      var pre := pairs[..n];
      assert pairs == pre + [pairs[n]];
      BuildListsValues(pre);
      var d := BuildLists(pre);
      forall k | k in BuildLists(pairs).entries
        ensures BuildLists(pairs).entries[k] == ValuesOf(pairs, k)
      {
        ValuesOfSnoc(pre, pairs[n], k);
        if k !in d.entries {
          BuildListsKeys(pre);
          BuildKeys(pre);
          forall i | 0 <= i < n ensures pre[i].0 != k {
            assert pre[i].0 in d.entries;
          }
          ValuesOfAbsent(pre, k);
        }
      }
    }
  }

  /** The positions of the pairs with key `k`. */
  ghost function PositionsOf<V>(pairs: seq<(string, V)>, k: string): set<nat> {
    set i: nat | i < |pairs| && pairs[i].0 == k
  }

  lemma PositionsSnoc<V>(pre: seq<(string, V)>, p: (string, V), k: string)
    ensures PositionsOf(pre + [p], k) == PositionsOf(pre, k) + if p.0 == k then {|pre|} else {}
  {
    var all := pre + [p];
    forall i: nat ensures i in PositionsOf(all, k) <==> i in PositionsOf(pre, k) + if p.0 == k then {|pre|} else {} {
      if i < |pre| {
        assert all[i] == pre[i];
      }
    }
  }

  /** Each key's list is as long as that key's number of pairs. */
  lemma {:induction false} BuildListsLength(pairs: seq<(string, int)>)
    ensures forall k | k in BuildLists(pairs).entries :: |BuildLists(pairs).entries[k]| == |PositionsOf(pairs, k)|
    decreases |pairs|
  {
    if pairs != [] {
      var n := |pairs| - 1;
      var pre := pairs[..n];
      assert pairs == pre + [pairs[n]];
      BuildListsLength(pre);
      var d := BuildLists(pre);
      assert BuildLists(pairs) == Append(d, pairs[n].0, pairs[n].1);
      forall k | k in BuildLists(pairs).entries
        ensures |BuildLists(pairs).entries[k]| == |PositionsOf(pairs, k)|
      {
        PositionsSnoc(pre, pairs[n], k);
        assert n !in PositionsOf(pre, k);
        if k !in d.entries {
          BuildListsKeys(pre);
          BuildKeys(pre);
          forall i | 0 <= i < n ensures pre[i].0 != k {
            assert pre[i].0 in d.entries;
          }
          assert PositionsOf(pre, k) == {};
        }
      }
    }
  }

  lemma PrefixTransitive(a: seq<int>, b: seq<int>, c: seq<int>)
    requires a <= b && b <= c
    ensures a <= c
  {
    assert c[..|a|] == c[..|b|][..|a|];
  }

  lemma BuildListsExtendsByOne(pairs: seq<(string, int)>, p: (string, int), k: string)
    requires k in BuildLists(pairs).entries
    ensures k in BuildLists(pairs + [p]).entries
    ensures BuildLists(pairs).entries[k] <= BuildLists(pairs + [p]).entries[k]
  {
    BuildListsSnoc(pairs, p);
  }

  /** Appending never rewrites: a later dict's list for a key extends the earlier one. */
  lemma {:induction false} BuildListsExtends(pairs: seq<(string, int)>, more: seq<(string, int)>, k: string)
    requires k in BuildLists(pairs).entries
    ensures k in BuildLists(pairs + more).entries
    ensures BuildLists(pairs).entries[k] <= BuildLists(pairs + more).entries[k]
    decreases |more|
  {
    if more == [] {
      assert pairs + more == pairs;
    } else {
      var m := |more| - 1;
      BuildListsExtends(pairs, more[..m], k);
      ConcatSnoc(pairs, more);
      BuildListsExtendsByOne(pairs + more[..m], more[m], k);
      PrefixTransitive(BuildLists(pairs).entries[k], BuildLists(pairs + more[..m]).entries[k],
                       BuildLists(pairs + more).entries[k]);
    }
  }
}
