/**
 * Grouping by key, the work the engine does with `defaultdict(int)` (counting
 * locations) and `defaultdict(list)` (collecting the intervals of one day).
 * A group is described positionally: `ks[i]` is the key of item `i` and
 * `vs[i]` its value.  Everything here recurses on the LAST item, matching a
 * loop that appends one item at a time.
 */
module Grouping {

  /** No key occurs twice: an enumeration of a dictionary's key set. */
  predicate NoDuplicates<K(==)>(keys: seq<K>)
  {
    forall i, j :: 0 <= i < j < |keys| ==> keys[i] != keys[j]
  }

  /** The number of occurrences of `k` in `ks`: what `defaultdict(int)` holds for `k` after counting `ks`. */
  function Count<K(==)>(ks: seq<K>, k: K): (n: nat)
    ensures n <= |ks|
    ensures n > 0 <==> k in ks
  {
    if |ks| == 0 then 0
    else
      assert ks == ks[..|ks| - 1] + [ks[|ks| - 1]];
      Count(ks[..|ks| - 1], k) + (if ks[|ks| - 1] == k then 1 else 0)
  }

  /**
   * The values whose key is `k`, in their original order: what
   * `defaultdict(list)` holds for `k` after appending every `vs[i]` under `ks[i]`.
   */
  function Select<K(==), V>(ks: seq<K>, vs: seq<V>, k: K): (r: seq<V>)
    requires |ks| == |vs|
    ensures |r| == Count(ks, k)
    ensures forall j :: 0 <= j < |r| ==> r[j] in vs
  {
    if |ks| == 0 then []
    else
      Select(ks[..|ks| - 1], vs[..|vs| - 1], k) + (if ks[|ks| - 1] == k then [vs[|vs| - 1]] else [])
  }

  /** Appending one keyed item extends exactly the group of its key. */
  lemma SelectSnoc<K, V>(ks: seq<K>, vs: seq<V>, x: K, v: V, k: K)
    requires |ks| == |vs|
    ensures Select(ks + [x], vs + [v], k) == Select(ks, vs, k) + (if x == k then [v] else [])
  {
    assert (ks + [x])[..|ks|] == ks;
    assert (vs + [v])[..|vs|] == vs;
  }

  /** When every item has key `k`, the group of `k` is all the items, in order. */
  lemma {:induction false} SelectAll<K, V>(ks: seq<K>, vs: seq<V>, k: K)
    requires |ks| == |vs|
    requires forall i :: 0 <= i < |ks| ==> ks[i] == k
    ensures Select(ks, vs, k) == vs
  {
    if |ks| > 0 {
      SelectAll(ks[..|ks| - 1], vs[..|vs| - 1], k);
      assert vs == vs[..|vs| - 1] + [vs[|vs| - 1]];
    }
  }

  lemma CountSnoc<K>(ks: seq<K>, x: K, k: K)
    ensures Count(ks + [x], k) == Count(ks, k) + (if x == k then 1 else 0)
  {
    assert (ks + [x])[..|ks|] == ks;
  }

  /** A key that occurs in a duplicate-free enumeration occurs exactly once. */
  lemma {:induction false} CountInDistinct<K>(keys: seq<K>, x: K)
    requires NoDuplicates(keys)
    ensures Count(keys, x) == if x in keys then 1 else 0
  {
    if |keys| > 0 {
      var init := keys[..|keys| - 1];
      assert keys == init + [keys[|keys| - 1]];
      CountInDistinct(init, x);
      if keys[|keys| - 1] == x {
        assert x !in init;
      }
    }
  }

  /** The counts of the keys `keys`, added up. */
  function SumOfCounts<K(==)>(keys: seq<K>, ks: seq<K>): nat
  {
    if |keys| == 0 then 0
    else SumOfCounts(keys[..|keys| - 1], ks) + Count(ks, keys[|keys| - 1])
  }

  lemma {:induction false} SumOfCountsSnoc<K>(keys: seq<K>, ks: seq<K>, x: K)
    ensures SumOfCounts(keys, ks + [x]) == SumOfCounts(keys, ks) + Count(keys, x)
  {
    if |keys| > 0 {
      var init := keys[..|keys| - 1];
      SumOfCountsSnoc(init, ks, x);
      CountSnoc(ks, x, keys[|keys| - 1]);
      assert keys == init + [keys[|keys| - 1]];
      CountSnoc(init, keys[|keys| - 1], x);
    }
  }

  /**
   * Counting partitions the items: over any duplicate-free enumeration of keys
   * that covers every item's key, the counts add up to the number of items.
   */
  lemma {:induction false} CountsPartition<K>(keys: seq<K>, ks: seq<K>)
    requires NoDuplicates(keys)
    requires forall i :: 0 <= i < |ks| ==> ks[i] in keys
    ensures SumOfCounts(keys, ks) == |ks|
  {
    if |ks| > 0 {
      var init := ks[..|ks| - 1];
      var x := ks[|ks| - 1];
      assert ks == init + [x];
      CountsPartition(keys, init);
      SumOfCountsSnoc(keys, init, x);
      CountInDistinct(keys, x);
    } else {
      SumOfCountsEmpty(keys, ks);
    }
  }

  lemma {:induction false} SumOfCountsEmpty<K>(keys: seq<K>, ks: seq<K>)
    requires |ks| == 0
    ensures SumOfCounts(keys, ks) == 0
  {
    if |keys| > 0 {
      SumOfCountsEmpty(keys[..|keys| - 1], ks);
    }
  }

  /** The groups of the keys `keys`, pooled into one multiset. */
  function Pooled<K(==), V(==)>(keys: seq<K>, ks: seq<K>, vs: seq<V>): multiset<V>
    requires |ks| == |vs|
  {
    if |keys| == 0 then multiset{}
    else Pooled(keys[..|keys| - 1], ks, vs) + multiset(Select(ks, vs, keys[|keys| - 1]))
  }

  lemma {:induction false} PooledSnoc<K, V>(keys: seq<K>, ks: seq<K>, vs: seq<V>, x: K, v: V)
    requires NoDuplicates(keys)
    requires |ks| == |vs|
    ensures Pooled(keys, ks + [x], vs + [v])
         == Pooled(keys, ks, vs) + if x in keys then multiset{v} else multiset{}
  {
    if |keys| > 0 {
      var init, last := keys[..|keys| - 1], keys[|keys| - 1];
      assert keys == init + [last];
      var before := Pooled(init, ks, vs);
      var group := multiset(Select(ks, vs, last));
      var added: multiset<V> := multiset{v};
      assert Pooled(init, ks + [x], vs + [v]) == before + (if x in init then added else multiset{}) by {
        PooledSnoc(init, ks, vs, x, v);
      }
      assert multiset(Select(ks + [x], vs + [v], last)) == group + (if x == last then added else multiset{}) by {
        SelectSnoc(ks, vs, x, v, last);
      }
      assert x in keys <==> x in init || x == last;
      assert !(x in init && x == last);
      var a: multiset<V> := if x in init then added else multiset{};
      var b: multiset<V> := if x == last then added else multiset{};
      assert a + b == if x in keys then added else multiset{};
      Rearrange(before, group, a, b);
    }
  }

  lemma Rearrange<V>(a: multiset<V>, b: multiset<V>, c: multiset<V>, d: multiset<V>)
    ensures (a + c) + (b + d) == (a + b) + (c + d)
  {
  }

  /**
   * Grouping partitions the items: over any duplicate-free enumeration of keys
   * that covers every item's key, the groups pooled together are exactly the
   * values, each as often as it occurs.
   */
  lemma {:induction false} GroupsPartition<K, V>(keys: seq<K>, ks: seq<K>, vs: seq<V>)
    requires NoDuplicates(keys)
    requires |ks| == |vs|
    requires forall i :: 0 <= i < |ks| ==> ks[i] in keys
    ensures Pooled(keys, ks, vs) == multiset(vs)
  {
    if |ks| > 0 {
      var n := |ks| - 1;
      assert ks == ks[..n] + [ks[n]];
      assert vs == vs[..n] + [vs[n]];
      GroupsPartition(keys, ks[..n], vs[..n]);
      PooledSnoc(keys, ks[..n], vs[..n], ks[n], vs[n]);
    } else {
      PooledEmpty(keys, vs);
    }
  }

  lemma {:induction false} PooledEmpty<K, V>(keys: seq<K>, vs: seq<V>)
    requires |vs| == 0
    ensures Pooled(keys, [], vs) == multiset{}
  {
    if |keys| > 0 {
      PooledEmpty(keys[..|keys| - 1], vs);
    }
  }

  /** The `defaultdict(int)` after counting every key of `ks` in turn. */
  ghost function Tally<K>(ks: seq<K>): map<K, nat>
  {
    if |ks| == 0 then map[]
    else
      var prev, k := Tally(ks[..|ks| - 1]), ks[|ks| - 1];
      prev[k := (if k in prev then prev[k] else 0) + 1]
  }

  /** Counting one more key increments exactly that key's entry, starting from 0 when absent. */
  lemma TallyStep<K>(ks: seq<K>, i: nat)
    requires i < |ks|
    ensures Tally(ks[..i + 1]) == Tally(ks[..i])[ks[i] := (if ks[i] in Tally(ks[..i]) then Tally(ks[..i])[ks[i]] else 0) + 1]
  {
    assert ks[..i + 1][..i] == ks[..i];
  }

  /** The tally holds exactly the keys that occur, each with its number of occurrences. */
  lemma {:induction false} TallyCounts<K>(ks: seq<K>)
    ensures forall k :: k in Tally(ks) <==> k in ks
    ensures forall k :: k in Tally(ks) ==> Tally(ks)[k] == Count(ks, k)
  {
    if |ks| > 0 {
      var init := ks[..|ks| - 1];
      assert ks == init + [ks[|ks| - 1]];
      TallyCounts(init);
      forall k ensures Count(ks, k) == Count(init, k) + (if ks[|ks| - 1] == k then 1 else 0) {
        CountSnoc(init, ks[|ks| - 1], k);
      }
    }
  }
}
