/** `Option`, the one wrapper the model needs beyond its own outcome types. */
module Optional {
  datatype Option<+T> = None | Some(value: T)
}

/** The `kv` dictionary the handlers fill: a Python `dict` from attribute name to
    already-rendered value text (`True`, `255`, `"books"`). A Python dict remembers
    insertion order, and storing under an existing key keeps that key where it is, so
    the model is an association list with unique keys. */
module OrderedDict {
  import opened Optional

  type Items = seq<(string, string)>

  /** Dictionary keys are unique. */
  ghost predicate UniqueKeys(items: Items)
  {
    forall i, j :: 0 <= i < j < |items| ==> items[i].0 != items[j].0
  }

  /** The keys, in insertion order. */
  function Keys(items: Items): (ks: seq<string>)
    ensures |ks| == |items|
    ensures forall i :: 0 <= i < |items| ==> ks[i] == items[i].0
    decreases |items|
  {
    if items == [] then [] else [items[0].0] + Keys(items[1..])
  }

  /** `kv.get(k)`. */
  function Get(items: Items, k: string): (r: Option<string>)
    ensures r.None? <==> k !in Keys(items)
    decreases |items|
  {
    if items == [] then None
    else if items[0].0 == k then Some(items[0].1)
    else Get(items[1..], k)
  }

  /** `kv[k] = v`: overwrite in place when `k` is present, append otherwise. */
  function Store(items: Items, k: string, v: string): Items
    decreases |items|
  {
    if items == [] then [(k, v)]
    else if items[0].0 == k then [(k, v)] + items[1..]
    else [items[0]] + Store(items[1..], k, v)
  }

  /** After `kv[k] = v` the key `k` maps to `v` and every other key is unchanged. */
  lemma {:induction false} StoreGet(items: Items, k: string, v: string, k': string)
    ensures Get(Store(items, k, v), k) == Some(v)
    ensures k' != k ==> Get(Store(items, k, v), k') == Get(items, k')
    decreases |items|
  {
    if items != [] && items[0].0 != k {
      StoreGet(items[1..], k, v, k');
      assert Store(items, k, v)[1..] == Store(items[1..], k, v);
    }
  }

  /** Storing under a present key keeps every key in its position; storing under a new
      key appends one entry at the end. */
  lemma {:induction false} StorePlacement(items: Items, k: string, v: string)
    ensures k in Keys(items) ==> Keys(Store(items, k, v)) == Keys(items)
    ensures k !in Keys(items) ==> Store(items, k, v) == items + [(k, v)]
    decreases |items|
  {
    if items != [] && items[0].0 != k {
      StorePlacement(items[1..], k, v);
      assert Keys(items) == [items[0].0] + Keys(items[1..]);
      assert Keys(Store(items, k, v)) == [items[0].0] + Keys(Store(items[1..], k, v));
      assert [items[0]] + (items[1..] + [(k, v)]) == items + [(k, v)];
    }
  }

  /** Storing keeps the keys unique. */
  lemma {:induction false} StoreUnique(items: Items, k: string, v: string)
    requires UniqueKeys(items)
    ensures UniqueKeys(Store(items, k, v))
    ensures forall i :: 0 <= i < |Store(items, k, v)| ==> Store(items, k, v)[i].0 == k || Store(items, k, v)[i].0 in Keys(items)
    decreases |items|
  {
    if items != [] && items[0].0 != k {
      StoreUnique(items[1..], k, v);
      var r := Store(items, k, v);
      assert r == [items[0]] + Store(items[1..], k, v);
      forall i | 1 <= i < |r| ensures r[i].0 != items[0].0 {
        assert r[i] == Store(items[1..], k, v)[i - 1];
        if r[i].0 != k {
          var ks := Keys(items[1..]);
          var j :| 0 <= j < |ks| && ks[j] == r[i].0;
          assert items[1..][j] == items[j + 1];
        }
      }
    }
  }

  /** A Python dict being filled in place. */
  class AttrDict {
    var items: Items

    ghost predicate Valid()
      reads this
    {
      UniqueKeys(items)
    }

    /** `kv = {}` */
    constructor ()
      ensures Valid() && items == []
    {
      items := [];
    }

    /** `kv[k] = v` */
    method Put(k: string, v: string)
      requires Valid()
      modifies this
      ensures Valid() && items == Store(old(items), k, v)
    {
      StoreUnique(items, k, v);
      items := Store(items, k, v);
    }
  }
}
