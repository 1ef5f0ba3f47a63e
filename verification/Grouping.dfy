/** Grouping a list by a string key into an insertion-ordered map, as both settle lanes do,
    and what sorting does to facts about the groups. */
module Grouping {
  import opened StableSort

  datatype Item<+V> = Item(key: string, value: V)

  /** The keys in the order they first appear: a JavaScript Map's iteration order. */
  function Keys<V>(items: seq<Item<V>>): seq<string> {
    if items == [] then []
    else
      var before, last := Keys(items[..|items| - 1]), items[|items| - 1];
      if last.key in before then before else before + [last.key]
  }

  /** The values under one key, in list order. */
  function Bucket<V>(items: seq<Item<V>>, key: string): seq<V> {
    if items == [] then []
    else
      var last := items[|items| - 1];
      Bucket(items[..|items| - 1], key) + (if last.key == key then [last.value] else [])
  }

  predicate Distinct(keys: seq<string>) {
    forall i, j :: 0 <= i < j < |keys| ==> keys[i] != keys[j]
  }

  function Values<V>(items: seq<Item<V>>): (r: seq<V>)
    ensures |r| == |items|
  {
    seq(|items|, i requires 0 <= i < |items| => items[i].value)
  }

  function BucketUnion<V>(items: seq<Item<V>>, keys: seq<string>): multiset<V> {
    if keys == [] then multiset{} else multiset(Bucket(items, keys[0])) + BucketUnion(items, keys[1..])
  }

  lemma {:induction false} KeysDistinct<V>(items: seq<Item<V>>)
    ensures Distinct(Keys(items))
    ensures forall k :: k in Keys(items) <==> Bucket(items, k) != []
  {
    if items != [] {
      KeysDistinct(items[..|items| - 1]);
    }
  }

  lemma {:induction false} BucketMembers<V(!new)>(items: seq<Item<V>>, key: string)
    ensures forall v :: v in Bucket(items, key) <==> Item(key, v) in items
  {
    if items != [] {
      BucketMembers(items[..|items| - 1], key);
      assert items == items[..|items| - 1] + [items[|items| - 1]];
    }
  }

  lemma BucketGrows<V>(items: seq<Item<V>>, item: Item<V>, key: string)
    ensures Bucket(items + [item], key) == Bucket(items, key) + (if item.key == key then [item.value] else [])
  {
    assert (items + [item])[..|items|] == items;
  }

  lemma DistinctTail(keys: seq<string>, k: string)
    requires Distinct(keys) && keys != []
    ensures Distinct(keys[1..]) && (k == keys[0] ==> k !in keys[1..])
    ensures k in keys <==> k == keys[0] || k in keys[1..]
  {
  }

  lemma {:induction false} UnionGrows<V>(items: seq<Item<V>>, item: Item<V>, keys: seq<string>)
    requires Distinct(keys)
    ensures BucketUnion(items + [item], keys) ==
            BucketUnion(items, keys) + (if item.key in keys then multiset{item.value} else multiset{})
  {
    if keys != [] {
      hide Bucket, Distinct;
      DistinctTail(keys, item.key);
      BucketGrows(items, item, keys[0]);
      UnionGrows(items, item, keys[1..]);
    }
  }

  lemma {:induction false} UnionSnoc<V>(items: seq<Item<V>>, keys: seq<string>, key: string)
    ensures BucketUnion(items, keys + [key]) == BucketUnion(items, keys) + multiset(Bucket(items, key))
  {
    if keys == [] {
      assert [key][1..] == [];
    } else {
      assert (keys + [key])[1..] == keys[1..] + [key];
      UnionSnoc(items, keys[1..], key);
    }
  }

  /** The groups partition the list: every item is in exactly one of them. */
  lemma {:induction false} GroupsPartition<V>(items: seq<Item<V>>)
    ensures BucketUnion(items, Keys(items)) == multiset(Values(items))
  {
    if items != [] {
      var before, last := items[..|items| - 1], items[|items| - 1];
      assert items == before + [last];
      GroupsPartition(before);
      UnionOneMore(before, last);
      ValuesSnoc(before, last);
    }
  }

  lemma ValuesSnoc<V>(items: seq<Item<V>>, item: Item<V>)
    ensures Values(items + [item]) == Values(items) + [item.value]
  {
    var a, b := Values(items + [item]), Values(items) + [item.value];
    assert forall i :: 0 <= i < |a| ==> a[i] == b[i];
  }

  lemma UnionOneMore<V>(items: seq<Item<V>>, item: Item<V>)
    ensures BucketUnion(items + [item], Keys(items + [item])) == BucketUnion(items, Keys(items)) + multiset{item.value}
  {
    KeysDistinct(items);
    UnionGrows(items, item, Keys(items));
    assert (items + [item])[..|items|] == items;
    if item.key !in Keys(items) {
      hide BucketUnion;
      BucketSnoc(items, item);
      UnionSnoc(items + [item], Keys(items), item.key);
    }
  }

  lemma BucketSnoc<V>(items: seq<Item<V>>, item: Item<V>)
    ensures Bucket(items + [item], item.key) == Bucket(items, item.key) + [item.value]
  {
    assert (items + [item])[..|items|] == items;
  }

  /** Each item's value replaced by a name for it. */
  function Relabel<V, W>(items: seq<Item<V>>, rename: V -> W): (r: seq<Item<W>>)
    ensures |r| == |items|
  {
    seq(|items|, i requires 0 <= i < |items| => Item(items[i].key, rename(items[i].value)))
  }

  function Labels<V, W>(vs: seq<V>, rename: V -> W): (r: seq<W>)
    ensures |r| == |vs|
  {
    seq(|vs|, i requires 0 <= i < |vs| => rename(vs[i]))
  }

  lemma LabelsSnoc<V, W>(vs: seq<V>, v: V, rename: V -> W)
    ensures Labels(vs + [v], rename) == Labels(vs, rename) + [rename(v)]
  {
    var a, b := Labels(vs + [v], rename), Labels(vs, rename) + [rename(v)];
    assert forall i :: 0 <= i < |a| ==> a[i] == b[i];
  }

  lemma RelabelSnoc<V, W>(items: seq<Item<V>>, item: Item<V>, rename: V -> W)
    ensures Relabel(items + [item], rename) == Relabel(items, rename) + [Item(item.key, rename(item.value))]
  {
    var a, b := Relabel(items + [item], rename), Relabel(items, rename) + [Item(item.key, rename(item.value))];
    assert forall i :: 0 <= i < |a| ==> a[i] == b[i];
  }

  lemma {:induction false} RelabelGroups<V, W>(items: seq<Item<V>>, rename: V -> W)
    ensures Keys(Relabel(items, rename)) == Keys(items)
    ensures forall k :: Bucket(Relabel(items, rename), k) == Labels(Bucket(items, k), rename)
  {
    if items != [] {
      var before := items[..|items| - 1];
      RelabelGroups(before, rename);
      assert items == before + [items[|items| - 1]];
      RelabelSnoc(before, items[|items| - 1], rename);
    }
  }

  // ---- sums and keys survive sorting ----

  function Union<T, E>(s: seq<T>, parts: T -> multiset<E>): multiset<E> {
    if s == [] then multiset{} else parts(s[0]) + Union(s[1..], parts)
  }

  lemma {:induction false} UnionInsert<T, E>(x: T, s: seq<T>, le: (T, T) -> bool, parts: T -> multiset<E>)
    ensures Union(Insert(x, s, le), parts) == parts(x) + Union(s, parts)
  {
    if s == [] || le(x, s[0]) {
      assert ([x] + s)[1..] == s;
    } else {
      UnionInsert(x, s[1..], le, parts);
      assert ([s[0]] + Insert(x, s[1..], le))[1..] == Insert(x, s[1..], le);
    }
  }

  lemma {:induction false} UnionSort<T, E>(s: seq<T>, le: (T, T) -> bool, parts: T -> multiset<E>)
    ensures Union(Sort(s, le), parts) == Union(s, parts)
  {
    if s != [] {
      UnionSort(s[1..], le, parts);
      UnionInsert(s[0], Sort(s[1..], le), le, parts);
    }
  }

  ghost predicate KeyedApart<T>(s: seq<T>, key: T -> string) {
    forall i, j :: 0 <= i < j < |s| ==> key(s[i]) != key(s[j])
  }

  lemma {:induction false} InsertKeyedApart<T>(x: T, s: seq<T>, le: (T, T) -> bool, key: T -> string)
    requires KeyedApart(s, key) && forall i :: 0 <= i < |s| ==> key(s[i]) != key(x)
    ensures KeyedApart(Insert(x, s, le), key)
  {
    if s != [] && !le(x, s[0]) {
      InsertKeyedApart(x, s[1..], le, key);
      var r := Insert(x, s[1..], le);
      forall j | 0 <= j < |r| ensures key(s[0]) != key(r[j]) {
        assert r[j] in multiset(r);
        assert r[j] == x || r[j] in multiset(s[1..]);
      }
    }
  }

  lemma {:induction false} SortKeyedApart<T>(s: seq<T>, le: (T, T) -> bool, key: T -> string)
    requires KeyedApart(s, key)
    ensures KeyedApart(Sort(s, le), key)
  {
    if s != [] {
      SortKeyedApart(s[1..], le, key);
      var r := Sort(s[1..], le);
      forall i | 0 <= i < |r| ensures key(r[i]) != key(s[0]) {
        assert r[i] in multiset(r);
        assert r[i] in s[1..];
      }
      InsertKeyedApart(s[0], r, le, key);
    }
  }
}
