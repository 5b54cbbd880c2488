/**
 * The collection cache: for every view key, the sparse data of all pages ever
 * added under it. The key is what the cache derives from a request's
 * non-pagination options; here it is an opaque value of type `K`.
 */
module Cache {
  import opened Wrappers
  import opened Sparse
  import opened JsArray

  /** The `data` argument of `addSync`: a JavaScript array, or any other value. */
  datatype Payload<T> = ArrayValue(elements: seq<T>) | OtherValue

  /** What `addSync` returns: the array it was given, or the `Error` it raises for anything else. */
  datatype AddResult<T> = Added(data: seq<T>) | Rejected(message: string)

  const NotAnArray := "Data must be an array."

  /** The view stored under `key`, or the empty object `addSync` would create for it. */
  function BucketOf<K, T>(cache: map<K, map<nat, T>>, key: K): map<nat, T> {
    if key in cache then cache[key] else map[]
  }

  /** `options.skip || 0`: the first position `getSync` returns. */
  function StartIndex(skip: Option<nat>): nat {
    skip.GetOr(0)
  }

  /**
   * `(options.skip + options.limit) || undefined`: the position `getSync` stops before.
   * A missing skip or limit makes the sum `NaN`, and both `NaN` and 0 turn into
   * `undefined`, which `slice` reads as "to the end".
   */
  function EndIndex(skip: Option<nat>, limit: Option<nat>): Option<nat> {
    if skip.Some? && limit.Some? && skip.value + limit.value != 0
    then Some(skip.value + limit.value)
    else None
  }

  /** `.length` of the plain object that holds a view's data: it has no such property. */
  function PlainObjectLength<T>(data: map<nat, T>): Option<nat> {
    None
  }

  /**
   * `skip > length + 1`: with `length` undefined the sum is `NaN`, and every
   * comparison with `NaN` is false.
   */
  function SkipsPastEnd(skip: nat, length: Option<nat>): bool {
    match length
    case None => false
    case Some(n) => skip > n + 1
  }

  /** The sparse-write warning compares against an undefined length, so it never fires. */
  lemma SparseWarningNeverFires<T>(skip: nat, data: map<nat, T>)
    ensures !SkipsPastEnd(skip, PlainObjectLength(data))
  {
  }

  /**
   * What `getSync` returns for a request with these key, skip and limit: the
   * requested slice of the view's dense array, or `[]` when nothing was ever
   * added under the key.
   */
  ghost function Get<K, T>(cache: map<K, map<nat, T>>, key: K, skip: Option<nat>, limit: Option<nat>)
    : seq<Option<T>>
  {
    if key in cache then Slice(Dense(cache[key]), StartIndex(skip), EndIndex(skip, limit)) else []
  }

  /**
   * The meaning of a `getSync` request: nothing for a key with no view; slot `j`
   * is position `skip + j` of the view (`None` where nothing was written); with
   * no usable end, everything from `skip` on; with both skip and limit, `limit`
   * slots clamped to the dense length.
   */
  lemma GetSlots<K, T>(cache: map<K, map<nat, T>>, key: K, skip: Option<nat>, limit: Option<nat>)
    ensures var r := Get(cache, key, skip, limit);
      && (key !in cache ==> r == [])
      && (forall j :: 0 <= j < |r| ==> key in cache && r[j] == Lookup(cache[key], StartIndex(skip) + j))
      && (key in cache && EndIndex(skip, limit).None? ==>
            var len := |Dense(cache[key])|;
            |r| == if StartIndex(skip) < len then len - StartIndex(skip) else 0)
      && (key in cache && skip.Some? && limit.Some? && skip.value + limit.value != 0 ==>
            var len := |Dense(cache[key])|;
            |r| == if len <= skip.value then 0
                   else if limit.value < len - skip.value then limit.value
                   else len - skip.value)
  {
    var r := Get(cache, key, skip, limit);
    if key in cache {
      var dense := Dense(cache[key]);
      forall j | 0 <= j < |r| ensures r[j] == Lookup(cache[key], StartIndex(skip) + j) {
        var p := StartIndex(skip) + j;
        assert r[j] == dense[p];
        if p in cache[key] {
          assert dense[p] == Some(cache[key][p]);
        }
      }
    }
  }

  class CollectionCache<K(==), T> {
    /** For every view key, the positions written under it and their records. */
    var cache: map<K, map<nat, T>>

    constructor ()
      ensures cache == map[]
    {
      cache := map[];
    }

    /** `getSync(options)`: a read-only slice of the view; the cache is not changed. */
    method GetSync(key: K, skip: Option<nat>, limit: Option<nat>) returns (data: seq<Option<T>>)
      ensures data == Get(cache, key, skip, limit)
    {
      data := [];
      if key in cache {
        var dense := ToArray(cache[key]);
        data := Slice(dense, StartIndex(skip), EndIndex(skip, limit));
      }
    }

    /** `allSync(options)`: `getSync` with skip 0 and no limit, i.e. the whole dense view. */
    method AllSync(key: K) returns (data: seq<Option<T>>)
      ensures data == Get(cache, key, Some(0), None)
      ensures data == if key in cache then Dense(cache[key]) else []
    {
      data := GetSync(key, Some(0), None);
      if key in cache {
        SliceInRange(Dense(cache[key]), 0, None);
      }
    }

    /**
     * `addSync(options, data)`: rejects anything but an array before touching the
     * cache; otherwise creates the view if there is none and writes `data[i]` at
     * position `skip + i`, overwriting what was there. Returns `data` itself.
     */
    method AddSync(key: K, skip: Option<nat>, data: Payload<T>) returns (r: AddResult<T>)
      modifies this
      ensures data.OtherValue? ==> r == Rejected(NotAnArray) && cache == old(cache)
      ensures data.ArrayValue? ==> r == Added(data.elements)
      ensures data.ArrayValue? ==>
        cache == old(cache)[key := Overlay(BucketOf(old(cache), key), skip.GetOr(0), data.elements)]
    {
      if !data.ArrayValue? {
        return Rejected(NotAnArray);
      }
      var s := skip.GetOr(0);
      var items := data.elements;
      ghost var before, view := cache, BucketOf(cache, key);
      if key !in cache {
        cache := cache[key := map[]];
      }
      // the sparse-write warning only logs, and its guard never holds
      assert !SkipsPastEnd(s, PlainObjectLength(cache[key])) by {
        SparseWarningNeverFires(s, cache[key]);
      }
      for i := 0 to |items|
        invariant key in cache && cache == before[key := cache[key]]
        invariant cache[key] == Overlay(view, s, items[..i])
      {
        OverlayStep(view, s, items, i);
        cache := cache[key := cache[key][s + i := items[i]]];
      }
      assert items[..|items|] == items;
      r := Added(items);
    }
  }

  /**
   * Reading back a page: after adding a page at skip `s`, a `getSync` with the
   * same skip and a limit of the page's length returns exactly the page. The one
   * exception is an empty page at skip 0, whose end `0 + 0 || undefined` reads
   * to the end of the view.
   */
  lemma GetAfterAdd<K, T>(cache: map<K, map<nat, T>>, key: K, s: nat, items: seq<T>)
    requires s + |items| > 0
    ensures Get(cache[key := Overlay(BucketOf(cache, key), s, items)], key, Some(s), Some(|items|))
            == Present(items)
  {
    var written := Overlay(BucketOf(cache, key), s, items);
    var dense := Dense(written);
    var got := Get(cache[key := written], key, Some(s), Some(|items|));
    assert got == Slice(dense, s, Some(s + |items|));
    if items == [] {
      assert |got| == 0;
      return;
    }
    assert s + |items| <= |dense| by {
      DenseLengthAfterOverlay(BucketOf(cache, key), s, items);
    }
    SliceInRange(dense, s, Some(s + |items|));
    forall j | 0 <= j < |items| ensures got[j] == Present(items)[j] {
      DensePageAfterOverlay(BucketOf(cache, key), s, items);
      assert got[j] == dense[s + j];
    }
  }

  /** Adding a page to one view changes no read of any other view. */
  lemma AddLeavesOtherViews<K, T>(cache: map<K, map<nat, T>>, key: K, s: nat, items: seq<T>,
                                  other: K, skip: Option<nat>, limit: Option<nat>)
    requires other != key
    ensures Get(cache[key := Overlay(BucketOf(cache, key), s, items)], other, skip, limit)
            == Get(cache, other, skip, limit)
  {
  }

  /**
   * `getSync` with a limit but no skip: `undefined + limit` is `NaN`, so the
   * request returns the whole view rather than its first `limit` slots.
   */
  lemma LimitWithoutSkipReturnsAll<K, T>(cache: map<K, map<nat, T>>, key: K, limit: nat)
    ensures Get(cache, key, None, Some(limit)) == Get(cache, key, Some(0), None)
  {
  }

  /** `getSync` with skip 0 and limit 0: the sum 0 reads as "to the end", so the whole view comes back. */
  lemma ZeroSkipZeroLimitReturnsAll<K, T>(cache: map<K, map<nat, T>>, key: K)
    ensures Get(cache, key, Some(0), Some(0)) == Get(cache, key, Some(0), None)
  {
  }
}
