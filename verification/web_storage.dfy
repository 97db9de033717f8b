/**
 * The browser's `localStorage`/`sessionStorage` as the client uses them: an ordered list of
 * key/value pairs with distinct keys, read by index (`key(i)`) and by key.
 */
module WebStorage {
  import opened Wrappers

  type Item = (string, string)

  ghost predicate DistinctKeys(items: seq<Item>) {
    forall i, j :: 0 <= i < j < |items| ==> items[i].0 != items[j].0
  }

  /** `getItem(k)` */
  function Lookup(items: seq<Item>, k: string): (r: Option<string>)
    ensures r.Some? <==> exists i :: 0 <= i < |items| && items[i].0 == k
    ensures r.Some? ==> (k, r.value) in items
  {
    if items == [] then None
    else if items[0].0 == k then Some(items[0].1)
    else
      var r := Lookup(items[1..], k);
      assert forall i :: 0 < i < |items| ==> items[i] == items[1..][i - 1];
      r
  }

  /** The items whose key is not among `ks`, in their order. */
  function FilterOut(items: seq<Item>, ks: seq<string>): (r: seq<Item>)
    ensures forall kv :: kv in r <==> kv in items && kv.0 !in ks
    ensures |r| <= |items|
  {
    if items == [] then []
    else if items[0].0 in ks then FilterOut(items[1..], ks)
    else [items[0]] + FilterOut(items[1..], ks)
  }

  lemma {:induction false} FilterOutNothing(items: seq<Item>)
    ensures FilterOut(items, []) == items
  {
    if items != [] {
      FilterOutNothing(items[1..]);
      assert items == [items[0]] + items[1..];
    }
  }

  /** Removing one key after others is removing them all at once. */
  lemma {:induction false} FilterOutTwice(items: seq<Item>, ks: seq<string>, k: string)
    ensures FilterOut(FilterOut(items, ks), [k]) == FilterOut(items, ks + [k])
  {
    if items != [] {
      FilterOutTwice(items[1..], ks, k);
      if items[0].0 !in ks {
        var rest := FilterOut(items[1..], ks);
        assert ([items[0]] + rest)[0] == items[0] && ([items[0]] + rest)[1..] == rest;
      }
    }
  }

  lemma {:induction false} FilterOutKeepsDistinct(items: seq<Item>, ks: seq<string>)
    requires DistinctKeys(items)
    ensures DistinctKeys(FilterOut(items, ks))
  {
    if items != [] {
      FilterOutKeepsDistinct(items[1..], ks);
      var rest := FilterOut(items[1..], ks);
      forall kv | kv in rest ensures kv.0 != items[0].0 {
        var j :| 0 <= j < |items[1..]| && items[1..][j] == kv;
        assert items[j + 1] == kv;
      }
    }
  }

  /** `setItem(k, v)`: overwrite the value of an existing key in place, or append a new pair. */
  function Store(items: seq<Item>, k: string, v: string): (r: seq<Item>)
    ensures Lookup(r, k) == Some(v)
    ensures forall k' :: k' != k ==> Lookup(r, k') == Lookup(items, k')
  {
    if items == [] then [(k, v)]
    else if items[0].0 == k then [(k, v)] + items[1..]
    else
      var rest := Store(items[1..], k, v);
      assert ([items[0]] + rest)[1..] == rest;
      [items[0]] + rest
  }

  lemma {:induction false} StoreKeepsDistinct(items: seq<Item>, k: string, v: string)
    requires DistinctKeys(items)
    ensures DistinctKeys(Store(items, k, v))
    ensures forall kv :: kv in Store(items, k, v) ==> kv == (k, v) || (kv in items && kv.0 != k)
  {
    if items == [] {
    } else if items[0].0 == k {
      TailKeysDiffer(items);
      ConsDistinct((k, v), items[1..]);
    } else {
      StoreKeepsDistinct(items[1..], k, v);
      var rest := Store(items[1..], k, v);
      TailKeysDiffer(items);
      assert Store(items, k, v) == [items[0]] + rest;
      ConsDistinct(items[0], rest);
    }
  }

  /** With distinct keys, no later item shares the first item's key. */
  lemma TailKeysDiffer(items: seq<Item>)
    requires DistinctKeys(items) && items != []
    ensures forall kv :: kv in items[1..] ==> kv.0 != items[0].0
  {
    forall kv | kv in items[1..] ensures kv.0 != items[0].0 {
      var j :| 0 <= j < |items[1..]| && items[1..][j] == kv;
      assert items[j + 1] == kv;
    }
  }

  /** Prepending an item whose key the rest does not use keeps keys distinct. */
  lemma ConsDistinct(h: Item, rest: seq<Item>)
    requires DistinctKeys(rest) && forall kv :: kv in rest ==> kv.0 != h.0
    ensures DistinctKeys([h] + rest)
  {
    var s := [h] + rest;
    forall i, j | 0 <= i < j < |s| ensures s[i].0 != s[j].0 {
      assert s[j] == rest[j - 1];
      if i > 0 {
        assert s[i] == rest[i - 1];
      }
    }
  }

  class Storage {
    var items: seq<Item>

    ghost predicate Valid()
      reads this
    {
      DistinctKeys(items)
    }

    constructor (initial: seq<Item>)
      requires DistinctKeys(initial)
      ensures Valid() && items == initial
    {
      items := initial;
    }

    /** `length` */
    function Length(): nat
      reads this
    {
      |items|
    }

    /** `key(i)` */
    function Key(i: nat): string
      reads this
      requires i < |items|
    {
      items[i].0
    }

    /** `getItem(k)` */
    function GetItem(k: string): Option<string>
      reads this
    {
      Lookup(items, k)
    }

    /** `removeItem(k)` */
    method RemoveItem(k: string)
      requires Valid()
      modifies this
      ensures Valid()
      ensures items == FilterOut(old(items), [k])
      ensures GetItem(k) == None
    {
      FilterOutKeepsDistinct(items, [k]);
      items := FilterOut(items, [k]);
      assert forall i :: 0 <= i < |items| ==> items[i] in items;
    }

    /** `setItem(k, v)` */
    method SetItem(k: string, v: string)
      requires Valid()
      modifies this
      ensures Valid()
      ensures items == Store(old(items), k, v)
    {
      StoreKeepsDistinct(items, k, v);
      items := Store(items, k, v);
    }

    /** `clear()` */
    method Clear()
      modifies this
      ensures Valid() && items == []
    {
      items := [];
    }
  }
}
