// Grouping a list by a key the way the board checks build their per-layer
// dictionaries: a Python dict filled with setdefault(key, []).append(item)
// keeps its keys in first-appearance order and each group in list order.
module Grouping {
  import opened Wrappers
  import opened Seqs

  /** The predicate "has key k". */
  function KeyIs<T, K(==)>(key: T -> K, k: K): T -> bool
  {
    x => key(x) == k
  }

  /** The distinct keys of xs in order of first appearance. */
  function Keys<T, K(==)>(xs: seq<T>, key: T -> K): seq<K>
  {
    if |xs| == 0 then []
    else
      var ks := Keys(xs[..|xs| - 1], key);
      if key(xs[|xs| - 1]) in ks then ks else ks + [key(xs[|xs| - 1])]
  }

  /**
   * No key is listed twice, every item's key is listed, and every listed key
   * is the key of some item.
   */
  lemma {:induction false} KeysExact<T, K>(xs: seq<T>, key: T -> K)
    ensures forall i, j :: 0 <= i < j < |Keys(xs, key)| ==> Keys(xs, key)[i] != Keys(xs, key)[j]
    ensures forall i :: 0 <= i < |xs| ==> key(xs[i]) in Keys(xs, key)
    ensures forall k :: k in Keys(xs, key) ==> exists i :: 0 <= i < |xs| && key(xs[i]) == k
  {
    if |xs| > 0 {
      var init := xs[..|xs| - 1];
      KeysExact(init, key);
      assert forall i :: 0 <= i < |init| ==> init[i] == xs[i];
    }
  }

  /** The groups in dictionary order: the items of each key, in list order. */
  function Grouped<T(==), K(==)>(xs: seq<T>, key: T -> K): (gs: seq<seq<T>>)
    ensures |gs| == |Keys(xs, key)|
  {
    var ks := Keys(xs, key);
    seq(|ks|, g requires 0 <= g < |ks| => Filter(xs, KeyIs(key, ks[g])))
  }

  /**
   * Two items lie, in this order, in a common group exactly when they lie in
   * this order in the list and have the same key.
   */
  lemma GroupedPairIn<T, K>(xs: seq<T>, key: T -> K, u: T, v: T)
    ensures (exists g :: 0 <= g < |Grouped(xs, key)| && PairIn(Grouped(xs, key)[g], u, v))
            <==> PairIn(xs, u, v) && key(u) == key(v)
  {
    var ks, gs := Keys(xs, key), Grouped(xs, key);
    KeysExact(xs, key);
    if exists g :: 0 <= g < |gs| && PairIn(gs[g], u, v) {
      var g :| 0 <= g < |gs| && PairIn(gs[g], u, v);
      FilterPairs(xs, KeyIs(key, ks[g]), u, v);
    }
    if PairIn(xs, u, v) && key(u) == key(v) {
      var a, b :| 0 <= a < b < |xs| && xs[a] == u && xs[b] == v;
      var g :| 0 <= g < |ks| && ks[g] == key(u);
      FilterPairs(xs, KeyIs(key, ks[g]), u, v);
      assert PairIn(gs[g], u, v);
    }
  }

  /** Every group holds only items of its key, and no group is empty. */
  lemma GroupedKeys<T, K>(xs: seq<T>, key: T -> K, g: nat)
    requires g < |Grouped(xs, key)|
    ensures |Grouped(xs, key)[g]| > 0
    ensures forall x :: x in Grouped(xs, key)[g] ==> key(x) == Keys(xs, key)[g]
  {
    var ks := Keys(xs, key);
    KeysExact(xs, key);
    assert ks[g] in ks;
    var i :| 0 <= i < |xs| && key(xs[i]) == ks[g];
    assert KeyIs(key, ks[g])(xs[i]);
    FilterMember(xs, KeyIs(key, ks[g]), xs[i]);
    forall x | x in Grouped(xs, key)[g]
      ensures key(x) == ks[g]
    {
      FilterMember(xs, KeyIs(key, ks[g]), x);
    }
  }

  lemma KeysStep<T, K>(xs: seq<T>, i: nat, key: T -> K)
    requires i < |xs|
    ensures Keys(xs[..i + 1], key) ==
            if key(xs[i]) in Keys(xs[..i], key) then Keys(xs[..i], key) else Keys(xs[..i], key) + [key(xs[i])]
  {
    assert xs[..i + 1][..i] == xs[..i];
  }

  /** The dictionary holds, for each key met so far, the items of that key. */
  ghost predicate GroupsOf<T, K>(groups: map<K, seq<T>>, xs: seq<T>, key: T -> K)
  {
    forall k :: k in groups ==> groups[k] == Filter(xs, KeyIs(key, k))
  }

  /** Appending one item to its key's group (creating it if new) keeps GroupsOf. */
  lemma AppendKeepsGroups<T, K>(groups: map<K, seq<T>>, xs: seq<T>, i: nat, key: T -> K)
    requires i < |xs| && GroupsOf(groups, xs[..i], key)
    requires key(xs[i]) !in groups ==> Filter(xs[..i], KeyIs(key, key(xs[i]))) == []
    ensures GroupsOf(groups[key(xs[i]) := (if key(xs[i]) in groups then groups[key(xs[i])] else []) + [xs[i]]],
                     xs[..i + 1], key)
  {
    var k := key(xs[i]);
    var g' := groups[k := (if k in groups then groups[k] else []) + [xs[i]]];
    forall k' | k' in g'
      ensures g'[k'] == Filter(xs[..i + 1], KeyIs(key, k'))
    {
      FilterStep(xs, i, KeyIs(key, k'));
    }
  }

  /** A key not yet listed has no items so far. */
  lemma FilterAbsent<T, K>(xs: seq<T>, key: T -> K, k: K)
    requires k !in Keys(xs, key)
    ensures Filter(xs, KeyIs(key, k)) == []
  {
    KeysExact(xs, key);
    if Filter(xs, KeyIs(key, k)) != [] {
      var x := Filter(xs, KeyIs(key, k))[0];
      FilterMember(xs, KeyIs(key, k), x);
    }
  }

  /** The key list and the dictionary built from xs. */
  ghost predicate Dict<T, K>(keys: seq<K>, groups: map<K, seq<T>>, xs: seq<T>, key: T -> K)
  {
    keys == Keys(xs, key) && (forall k :: k in groups ==> k in keys) && (forall k :: k in keys ==> k in groups) &&
    GroupsOf(groups, xs, key)
  }

  /** Adding item i to its group, and its key to the list when new, extends the dictionary by one item. */
  lemma DictStep<T, K>(keys: seq<K>, groups: map<K, seq<T>>, xs: seq<T>, i: nat, key: T -> K)
    requires i < |xs| && Dict(keys, groups, xs[..i], key)
    ensures key(xs[i]) in groups ==>
              Dict(keys, groups[key(xs[i]) := groups[key(xs[i])] + [xs[i]]], xs[..i + 1], key)
    ensures key(xs[i]) !in groups ==>
              Dict(keys + [key(xs[i])], groups[key(xs[i]) := [xs[i]]], xs[..i + 1], key)
  {
    var k := key(xs[i]);
    KeysStep(xs, i, key);
    if k !in groups {
      FilterAbsent(xs[..i], key, k);
    }
    AppendKeepsGroups(groups, xs, i, key);
  }

  /** Builds the dictionary: keys in first-appearance order, and each group. */
  method GroupBy<T(==), K(==)>(xs: seq<T>, key: T -> K) returns (keys: seq<K>, groups: map<K, seq<T>>)
    ensures keys == Keys(xs, key)
    ensures forall k :: k in groups <==> k in keys
    ensures forall k :: k in groups ==> groups[k] == Filter(xs, KeyIs(key, k))
  {
    keys, groups := [], map[];
    var i := 0;
    while i < |xs|
      invariant 0 <= i <= |xs|
      invariant Dict(keys, groups, xs[..i], key)
    {
      var x := xs[i];
      var k := key(x);
      DictStep(keys, groups, xs, i, key);
      if k in groups {
        groups := groups[k := groups[k] + [x]];
      } else {
        keys := keys + [k];
        groups := groups[k := [x]];
      }
      i := i + 1;
    }
    assert xs[..i] == xs;
  }

  /** The dictionary's values in key order are the groups. */
  method GroupList<T(==), K(==)>(xs: seq<T>, key: T -> K) returns (lists: seq<seq<T>>)
    ensures lists == Grouped(xs, key)
  {
    var keys, groups := GroupBy(xs, key);
    lists := [];
    var g := 0;
    while g < |keys|
      invariant 0 <= g <= |keys|
      invariant |lists| == g
      invariant forall h :: 0 <= h < g ==> lists[h] == groups[keys[h]]
    {
      lists := lists + [groups[keys[g]]];
      g := g + 1;
    }
    ghost var gs := Grouped(xs, key);
    assert |lists| == |gs|;
    forall h | 0 <= h < |gs|
      ensures lists[h] == gs[h]
    {
      assert keys[h] in groups;
    }
  }

  /** A report of the per-group pair scan comes from a same-key pair in list order. */
  lemma GroupScanSound<T, K, M>(xs: seq<T>, key: T -> K, report: (T, T) -> Option<M>, m: M)
    requires m in Groups(Grouped(xs, key), 0, report)
    ensures exists u, v :: PairIn(xs, u, v) && key(u) == key(v) && report(u, v) == Some(m)
  {
    var gs := Grouped(xs, key);
    GroupsMember(gs, 0, report, m);
    var g :| 0 <= g < |gs| && m in Tri(gs[g], 0, report);
    TriMember(gs[g], 0, report, m);
    var a, b :| 0 <= a < b < |gs[g]| && report(gs[g][a], gs[g][b]) == Some(m);
    var u, v := gs[g][a], gs[g][b];
    assert PairIn(gs[g], u, v);
    GroupedPairIn(xs, key, u, v);
  }

  /** Every same-key pair in list order that has a report contributes it. */
  lemma GroupScanComplete<T, K, M>(xs: seq<T>, key: T -> K, report: (T, T) -> Option<M>, u: T, v: T)
    requires PairIn(xs, u, v) && key(u) == key(v) && report(u, v).Some?
    ensures report(u, v).value in Groups(Grouped(xs, key), 0, report)
  {
    var gs := Grouped(xs, key);
    var m := report(u, v).value;
    GroupedPairIn(xs, key, u, v);
    var g :| 0 <= g < |gs| && PairIn(gs[g], u, v);
    var a, b :| 0 <= a < b < |gs[g]| && gs[g][a] == u && gs[g][b] == v;
    TriMember(gs[g], 0, report, m);
    GroupsMember(gs, 0, report, m);
  }

  /** The group holding a listed item's key is exactly the items of that key. */
  lemma GroupOf<T, K>(xs: seq<T>, key: T -> K, x: T)
    requires x in xs
    ensures exists g :: 0 <= g < |Grouped(xs, key)| && Keys(xs, key)[g] == key(x) &&
                        Grouped(xs, key)[g] == Filter(xs, KeyIs(key, key(x)))
  {
    KeysExact(xs, key);
    var i :| 0 <= i < |xs| && xs[i] == x;
    assert key(xs[i]) in Keys(xs, key);
    var g :| 0 <= g < |Keys(xs, key)| && Keys(xs, key)[g] == key(x);
    assert Grouped(xs, key)[g] == Filter(xs, KeyIs(key, key(x)));
  }
}
