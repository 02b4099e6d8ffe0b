/**
  The ordered map the viewer groups into: `map.entry(key).or_insert_with(Vec::new).push(value)`
  folded over a sequence of values. The map is a sequence of groups kept in
  ascending key order, as a `BTreeMap` yields them; the key comparison is a
  parameter, so the same fold serves the source-file grouping and the
  kernel-name and instance-name groupings of expand mode.
*/
module Grouping {
  import opened Orderings

  /** One map entry: the key it was created with and the values pushed under it, oldest first. */
  datatype Group<K, V> = Group(key: K, values: seq<V>)

  /** Where a search for `key` stops: the first group whose key is not below it. */
  function Position<K, V>(groups: seq<Group<K, V>>, key: K, cmp: (K, K) -> Ordering): (p: nat)
    ensures p <= |groups|
    ensures forall j | 0 <= j < p :: cmp(key, groups[j].key) == Greater
    ensures p < |groups| ==> cmp(key, groups[p].key) != Greater
  {
    if groups == [] || cmp(key, groups[0].key) != Greater then 0
    else 1 + Position(groups[1..], key, cmp)
  }

  /**
    Pushes `value` under `key`: onto the group whose key ties it, which keeps
    its original key, or into a new group at the position that keeps the keys
    ascending.
  */
  function Insert<K, V>(groups: seq<Group<K, V>>, key: K, value: V, cmp: (K, K) -> Ordering): seq<Group<K, V>> {
    var p := Position(groups, key, cmp);
    if p < |groups| && cmp(key, groups[p].key) == Equal then
      groups[..p] + [Group(groups[p].key, groups[p].values + [value])] + groups[p + 1..]
    else
      groups[..p] + [Group(key, [value])] + groups[p..]
  }

  /** The map after pushing every value under its own key, in input order. */
  function GroupAll<K, V>(items: seq<V>, keyOf: V -> K, cmp: (K, K) -> Ordering): seq<Group<K, V>> {
    if items == [] then []
    else
      var last := items[|items| - 1];
      Insert(GroupAll(items[..|items| - 1], keyOf, cmp), keyOf(last), last, cmp)
  }

  /** The values whose key ties `key`, in input order. */
  function Matching<K, V>(items: seq<V>, keyOf: V -> K, cmp: (K, K) -> Ordering, key: K): seq<V> {
    if items == [] then []
    else
      var last := items[|items| - 1];
      Matching(items[..|items| - 1], keyOf, cmp, key) + (if cmp(keyOf(last), key) == Equal then [last] else [])
  }

  predicate Ascending<K, V>(groups: seq<Group<K, V>>, cmp: (K, K) -> Ordering) {
    forall i, j | 0 <= i < j < |groups| :: cmp(groups[i].key, groups[j].key) == Less
  }

  /** Some group's key ties `key`. */
  ghost predicate HasGroup<K, V>(groups: seq<Group<K, V>>, key: K, cmp: (K, K) -> Ordering) {
    exists q :: 0 <= q < |groups| && cmp(key, groups[q].key) == Equal
  }

  /**
    What the map holds once `items` are grouped: keys strictly ascending, each
    group non-empty and keyed by its first value's key, each group holding
    exactly the values whose key ties its own, in input order, and every value
    having a group.
  */
  ghost predicate Grouped<K, V>(groups: seq<Group<K, V>>, items: seq<V>, keyOf: V -> K, cmp: (K, K) -> Ordering) {
    && Ascending(groups, cmp)
    && (forall q | 0 <= q < |groups| :: groups[q].values != [] && groups[q].key == keyOf(groups[q].values[0]))
    && (forall q | 0 <= q < |groups| :: groups[q].values == Matching(items, keyOf, cmp, groups[q].key))
    && (forall j | 0 <= j < |items| :: HasGroup(groups, keyOf(items[j]), cmp))
  }

  lemma Reflexive<K(!new)>(cmp: (K, K) -> Ordering, a: K)
    requires TotalPreorder(cmp)
    ensures cmp(a, a) == Equal
  {
    assert cmp(a, a) == cmp(a, a).Flip();
  }

  lemma MatchingStep<K, V>(items: seq<V>, v: V, keyOf: V -> K, cmp: (K, K) -> Ordering, key: K)
    ensures Matching(items + [v], keyOf, cmp, key)
      == Matching(items, keyOf, cmp, key) + (if cmp(keyOf(v), key) == Equal then [v] else [])
  {
    assert (items + [v])[..|items|] == items;
  }

  lemma {:induction false} MatchingEmpty<K, V>(items: seq<V>, keyOf: V -> K, cmp: (K, K) -> Ordering, key: K)
    requires forall j | 0 <= j < |items| :: cmp(keyOf(items[j]), key) != Equal
    ensures Matching(items, keyOf, cmp, key) == []
  {
    if items != [] {
      MatchingEmpty(items[..|items| - 1], keyOf, cmp, key);
    }
  }

  /** When the search for `key` finds no tie, no group's key ties it. */
  lemma NotFoundNoTie<K(!new), V>(groups: seq<Group<K, V>>, key: K, cmp: (K, K) -> Ordering, q: nat)
    requires TotalPreorder(cmp) && Ascending(groups, cmp) && q < |groups|
    requires var p := Position(groups, key, cmp); !(p < |groups| && cmp(key, groups[p].key) == Equal)
    ensures cmp(key, groups[q].key) != Equal
  {
    var p := Position(groups, key, cmp);
    if p < q {
      PreorderChains(cmp, key, groups[p].key, groups[q].key);
    }
  }

  /** Two groups whose keys tie one key are the same group. */
  lemma TieUnique<K(!new), V>(groups: seq<Group<K, V>>, key: K, cmp: (K, K) -> Ordering, q: nat, q': nat)
    requires TotalPreorder(cmp) && Ascending(groups, cmp) && q < |groups| && q' < |groups|
    requires cmp(key, groups[q].key) == Equal && cmp(key, groups[q'].key) == Equal
    ensures q == q'
  {
    assert cmp(groups[q].key, key) == Equal;
    PreorderChains(cmp, groups[q].key, key, groups[q'].key);
  }

  /** Index by index, where each group of the old map ends up. */
  lemma InsertAt<K, V>(groups: seq<Group<K, V>>, key: K, value: V, cmp: (K, K) -> Ordering, q: nat)
    ensures var p, r := Position(groups, key, cmp), Insert(groups, key, value, cmp);
      if p < |groups| && cmp(key, groups[p].key) == Equal then
        && |r| == |groups|
        && (q < |r| ==> r[q] == if q == p then Group(groups[p].key, groups[p].values + [value]) else groups[q])
      else
        && |r| == |groups| + 1
        && (q < |r| ==> r[q] == if q < p then groups[q] else if q == p then Group(key, [value]) else groups[q - 1])
  {
  }

  lemma InsertAscending<K(!new), V>(groups: seq<Group<K, V>>, key: K, value: V, cmp: (K, K) -> Ordering)
    requires TotalPreorder(cmp) && Ascending(groups, cmp)
    ensures Ascending(Insert(groups, key, value, cmp), cmp)
  {
    var p := Position(groups, key, cmp);
    var r := Insert(groups, key, value, cmp);
    var found := p < |groups| && cmp(key, groups[p].key) == Equal;
    forall i, j | 0 <= i < j < |r| ensures cmp(r[i].key, r[j].key) == Less {
      InsertAt(groups, key, value, cmp, i);
      InsertAt(groups, key, value, cmp, j);
      if found {
        assert r[i].key == groups[i].key && r[j].key == groups[j].key;
      } else if j == p {
        assert cmp(r[i].key, key) == cmp(key, r[i].key).Flip();
      } else if i == p {
        PreorderChains(cmp, key, groups[p].key, groups[j - 1].key);
      } else {
        var i', j' := if i < p then i else i - 1, if j < p then j else j - 1;
        assert r[i].key == groups[i'].key && r[j].key == groups[j'].key && i' < j';
      }
    }
  }

  /** After the push, each group's first value still carries the group's key. */
  lemma InsertFirstKeys<K, V>(groups: seq<Group<K, V>>, v: V, keyOf: V -> K, cmp: (K, K) -> Ordering)
    requires forall q | 0 <= q < |groups| :: groups[q].values != [] && groups[q].key == keyOf(groups[q].values[0])
    ensures var r := Insert(groups, keyOf(v), v, cmp);
      forall q | 0 <= q < |r| :: r[q].values != [] && r[q].key == keyOf(r[q].values[0])
  {
    var r := Insert(groups, keyOf(v), v, cmp);
    forall q | 0 <= q < |r| ensures r[q].values != [] && r[q].key == keyOf(r[q].values[0]) {
      InsertAt(groups, keyOf(v), v, cmp, q);
    }
  }

  /** No value seen so far ties a key that the search did not find. */
  lemma NoEarlierTie<K(!new), V>(groups: seq<Group<K, V>>, items: seq<V>, key: K, keyOf: V -> K, cmp: (K, K) -> Ordering)
    requires TotalPreorder(cmp) && Ascending(groups, cmp)
    requires forall j | 0 <= j < |items| :: HasGroup(groups, keyOf(items[j]), cmp)
    requires var p := Position(groups, key, cmp); !(p < |groups| && cmp(key, groups[p].key) == Equal)
    ensures Matching(items, keyOf, cmp, key) == []
  {
    forall j | 0 <= j < |items| ensures cmp(keyOf(items[j]), key) != Equal {
      var g :| 0 <= g < |groups| && cmp(keyOf(items[j]), groups[g].key) == Equal;
      NotFoundNoTie(groups, key, cmp, g);
      PreorderChains(cmp, key, keyOf(items[j]), groups[g].key);
      assert cmp(key, keyOf(items[j])) == cmp(keyOf(items[j]), key).Flip();
    }
    MatchingEmpty(items, keyOf, cmp, key);
  }

  /** Group `q` of the new map holds exactly the values of the longer input that tie its key. */
  lemma InsertMatching<K(!new), V>(groups: seq<Group<K, V>>, items: seq<V>, v: V, keyOf: V -> K, cmp: (K, K) -> Ordering, q: nat)
    requires TotalPreorder(cmp) && Grouped(groups, items, keyOf, cmp)
    requires q < |Insert(groups, keyOf(v), v, cmp)|
    ensures var r := Insert(groups, keyOf(v), v, cmp);
      r[q].values == Matching(items + [v], keyOf, cmp, r[q].key)
  {
    var key := keyOf(v);
    var p := Position(groups, key, cmp);
    var r := Insert(groups, key, v, cmp);
    InsertAt(groups, key, v, cmp, q);
    MatchingStep(items, v, keyOf, cmp, r[q].key);
    if p < |groups| && cmp(key, groups[p].key) == Equal {
      if q != p && cmp(key, groups[q].key) == Equal {
        TieUnique(groups, key, cmp, p, q);
      }
    } else if q == p {
      Reflexive(cmp, key);
      NoEarlierTie(groups, items, key, keyOf, cmp);
    } else {
      NotFoundNoTie(groups, key, cmp, if q < p then q else q - 1);
    }
  }

  /** Every value of the longer input has a group in the new map. */
  lemma InsertCovers<K(!new), V>(groups: seq<Group<K, V>>, items: seq<V>, v: V, keyOf: V -> K, cmp: (K, K) -> Ordering, j: nat)
    requires TotalPreorder(cmp)
    requires forall j | 0 <= j < |items| :: HasGroup(groups, keyOf(items[j]), cmp)
    requires j <= |items|
    ensures HasGroup(Insert(groups, keyOf(v), v, cmp), keyOf((items + [v])[j]), cmp)
  {
    var key := keyOf(v);
    var p := Position(groups, key, cmp);
    var r := Insert(groups, key, v, cmp);
    var found := p < |groups| && cmp(key, groups[p].key) == Equal;
    if j == |items| {
      InsertAt(groups, key, v, cmp, p);
      Reflexive(cmp, key);
      assert cmp(key, r[p].key) == Equal;
    } else {
      var g :| 0 <= g < |groups| && cmp(keyOf(items[j]), groups[g].key) == Equal;
      var g' := if found || g < p then g else g + 1;
      InsertAt(groups, key, v, cmp, g');
      assert r[g'].key == groups[g].key;
    }
  }

  /** Pushing one more value keeps the map a grouping of the longer input. */
  lemma InsertGrouped<K(!new), V>(groups: seq<Group<K, V>>, items: seq<V>, v: V, keyOf: V -> K, cmp: (K, K) -> Ordering)
    requires TotalPreorder(cmp) && Grouped(groups, items, keyOf, cmp)
    ensures Grouped(Insert(groups, keyOf(v), v, cmp), items + [v], keyOf, cmp)
  {
    var r := Insert(groups, keyOf(v), v, cmp);
    InsertAscending(groups, keyOf(v), v, cmp);
    InsertFirstKeys(groups, v, keyOf, cmp);
    forall q | 0 <= q < |r| ensures r[q].values == Matching(items + [v], keyOf, cmp, r[q].key) {
      InsertMatching(groups, items, v, keyOf, cmp, q);
    }
    forall j | 0 <= j < |items + [v]| ensures HasGroup(r, keyOf((items + [v])[j]), cmp) {
      InsertCovers(groups, items, v, keyOf, cmp, j);
    }
  }

  /** The fold builds a grouping of its whole input. */
  lemma {:induction false} GroupAllGrouped<K(!new), V>(items: seq<V>, keyOf: V -> K, cmp: (K, K) -> Ordering)
    requires TotalPreorder(cmp)
    ensures Grouped(GroupAll(items, keyOf, cmp), items, keyOf, cmp)
  {
    if items != [] {
      var init, last := items[..|items| - 1], items[|items| - 1];
      assert init + [last] == items;
      assert GroupAll(items, keyOf, cmp) == Insert(GroupAll(init, keyOf, cmp), keyOf(last), last, cmp);
      GroupAllGrouped(init, keyOf, cmp);
      InsertGrouped(GroupAll(init, keyOf, cmp), init, last, keyOf, cmp);
    }
  }

  /** Every value lands in exactly one group, and that group holds it. */
  lemma ExactlyOneGroup<K(!new), V>(items: seq<V>, keyOf: V -> K, cmp: (K, K) -> Ordering, j: nat, groups: seq<Group<K, V>>)
    requires TotalPreorder(cmp) && j < |items| && groups == GroupAll(items, keyOf, cmp)
    ensures exists q :: 0 <= q < |groups| && cmp(keyOf(items[j]), groups[q].key) == Equal && items[j] in groups[q].values
    ensures forall q, q' | 0 <= q < |groups| && 0 <= q' < |groups| ::
      cmp(keyOf(items[j]), groups[q].key) == Equal && cmp(keyOf(items[j]), groups[q'].key) == Equal ==> q == q'
  {
    assert Grouped(groups, items, keyOf, cmp) by {
      GroupAllGrouped(items, keyOf, cmp);
    }
    GroupedExactlyOne(groups, items, keyOf, cmp, j);
  }

  lemma GroupedExactlyOne<K(!new), V>(groups: seq<Group<K, V>>, items: seq<V>, keyOf: V -> K, cmp: (K, K) -> Ordering, j: nat)
    requires TotalPreorder(cmp) && j < |items| && Grouped(groups, items, keyOf, cmp)
    ensures exists q :: 0 <= q < |groups| && cmp(keyOf(items[j]), groups[q].key) == Equal && items[j] in groups[q].values
    ensures forall q, q' | 0 <= q < |groups| && 0 <= q' < |groups| ::
      cmp(keyOf(items[j]), groups[q].key) == Equal && cmp(keyOf(items[j]), groups[q'].key) == Equal ==> q == q'
  {
    assert HasGroup(groups, keyOf(items[j]), cmp);
    var g :| 0 <= g < |groups| && cmp(keyOf(items[j]), groups[g].key) == Equal;
    MatchingHolds(items, keyOf, cmp, groups[g].key, j);
    assert items[j] in groups[g].values;
    forall q, q' | 0 <= q < |groups| && 0 <= q' < |groups| &&
      cmp(keyOf(items[j]), groups[q].key) == Equal && cmp(keyOf(items[j]), groups[q'].key) == Equal
      ensures q == q'
    {
      TieUnique(groups, keyOf(items[j]), cmp, q, q');
    }
  }

  /** A value whose key ties `key` is among the values matching `key`. */
  lemma {:induction false} MatchingHolds<K, V>(items: seq<V>, keyOf: V -> K, cmp: (K, K) -> Ordering, key: K, j: nat)
    requires j < |items| && cmp(keyOf(items[j]), key) == Equal
    ensures items[j] in Matching(items, keyOf, cmp, key)
  {
    if j < |items| - 1 {
      MatchingHolds(items[..|items| - 1], keyOf, cmp, key, j);
    }
  }

  /** The matching values come from the input, and each one's key ties `key`. */
  lemma {:induction false} MatchingKeysTie<K, V>(items: seq<V>, keyOf: V -> K, cmp: (K, K) -> Ordering, key: K)
    ensures forall v | v in Matching(items, keyOf, cmp, key) :: v in items && cmp(keyOf(v), key) == Equal
  {
    if items != [] {
      MatchingKeysTie(items[..|items| - 1], keyOf, cmp, key);
    }
  }

  /**
    Under a total order a tie is equality: the map's keys ascend strictly, and
    every group is non-empty and holds only input values carrying exactly its key.
  */
  lemma KeyedGroups<K(!new), V>(items: seq<V>, keyOf: V -> K, cmp: (K, K) -> Ordering, groups: seq<Group<K, V>>)
    requires TotalOrder(cmp) && groups == GroupAll(items, keyOf, cmp)
    ensures Ascending(groups, cmp)
    ensures forall q | 0 <= q < |groups| :: groups[q].values != []
    ensures forall q, k | 0 <= q < |groups| && 0 <= k < |groups[q].values| ::
      groups[q].values[k] in items && keyOf(groups[q].values[k]) == groups[q].key
  {
    GroupAllGrouped(items, keyOf, cmp);
    forall q | 0 <= q < |groups|
      ensures forall k | 0 <= k < |groups[q].values| :: groups[q].values[k] in items && keyOf(groups[q].values[k]) == groups[q].key
    {
      MatchingKeysTie(items, keyOf, cmp, groups[q].key);
    }
  }

  /** `entry(key).or_insert_with(Vec::new).push(value)`, the search done from the smallest key up. */
  method InsertInto<K, V>(groups: seq<Group<K, V>>, key: K, value: V, cmp: (K, K) -> Ordering) returns (r: seq<Group<K, V>>)
    ensures r == Insert(groups, key, value, cmp)
  {
    var i := 0;
    while i < |groups| && cmp(key, groups[i].key) == Greater
      invariant i <= Position(groups, key, cmp)
    {
      i := i + 1;
    }
    if i < |groups| && cmp(key, groups[i].key) == Equal {
      r := groups[..i] + [Group(groups[i].key, groups[i].values + [value])] + groups[i + 1..];
    } else {
      r := groups[..i] + [Group(key, [value])] + groups[i..];
    }
  }

  /** The fold over the input that builds the map. */
  method GroupBy<K, V>(items: seq<V>, keyOf: V -> K, cmp: (K, K) -> Ordering) returns (groups: seq<Group<K, V>>)
    ensures groups == GroupAll(items, keyOf, cmp)
  {
    groups := [];
    for k := 0 to |items|
      invariant groups == GroupAll(items[..k], keyOf, cmp)
    {
      assert items[..k + 1][..k] == items[..k];
      groups := InsertInto(groups, keyOf(items[k]), items[k], cmp);
    }
    assert items[..|items|] == items;
  }
}
