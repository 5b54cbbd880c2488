/**
 * The behaviour the repository's tests describe, stated as client code of
 * `CollectionCache`: each method builds a fresh cache, makes the calls a test
 * makes, and promises what the test expects. The tests add the numbers 1, 2, 3
 * and 4; here they are any records `a`, `b`, `c` and `d`. Every request in these
 * tests carries no options besides skip and limit, so all of them go to one view,
 * whose key is `View` here. The lemmas before each method state the test's
 * expectation about the view's data alone.
 */
module CacheScenarios {
  import opened Wrappers
  import opened Sparse
  import opened Cache
  import opened JsArray

  /** `getCacheKey` returns an object, so the property name every request ends up using is its string form. */
  const View := "[object Object]"

  /** A first page of three records at skip 0 fills positions 0, 1 and 2. */
  lemma FirstPage<T>(a: T, b: T, c: T)
    ensures var dense := Dense(Overlay(map[], 0, [a, b, c]));
      |dense| == 3 && dense[0] == Some(a) && dense[1] == Some(b) && dense[2] == Some(c)
  {
    var page := [a, b, c];
    DenseLengthAfterOverlay(map[], 0, page);
    DensePageAfterOverlay(map[], 0, page);
    assert page[0] == a && page[1] == b && page[2] == c;
  }

  /** Three records at skip 10 of an empty view: 13 slots, the first 10 unwritten. */
  lemma SparsePage<T>(a: T, b: T, c: T)
    ensures var all := Dense(Overlay(map[], 10, [a, b, c]));
      && |all| == 13
      && (forall i :: 0 <= i < 10 ==> all[i] == None)
      && all[10] == Some(a) && all[11] == Some(b) && all[12] == Some(c)
  {
    var page := [a, b, c];
    DenseLengthAfterOverlay(map[], 10, page);
    DensePageAfterOverlay(map[], 10, page);
    DenseRestAfterOverlay(map[], 10, page);
    assert page[0] == a && page[1] == b && page[2] == c;
  }

  /** addSparse: `add({skip: 10}, [a, b, c])` returns the page; `all({})` then has 13 slots, the first 10 unwritten. */
  method AddSparse<T>(a: T, b: T, c: T) returns (added: AddResult<T>, all: seq<Option<T>>)
    ensures added == Added([a, b, c])
    ensures |all| == 13
    ensures forall i :: 0 <= i < 10 ==> all[i] == None
    ensures all[10] == Some(a) && all[11] == Some(b) && all[12] == Some(c)
  {
    var cache := new CollectionCache<string, T>();
    added := cache.AddSync(View, Some(10), ArrayValue([a, b, c]));
    all := cache.AllSync(View);
    SparsePage(a, b, c);
  }

  /** Writing `d` at skip 2 over the first page replaces `c` and keeps the length. */
  lemma ReplaceLast<T>(a: T, b: T, c: T, d: T)
    ensures var all := Dense(Overlay(Overlay(map[], 0, [a, b, c]), 2, [d]));
      |all| == 3 && all[0] == Some(a) && all[1] == Some(b) && all[2] == Some(d)
  {
    var view := Overlay(map[], 0, [a, b, c]);
    FirstPage(a, b, c);
    DenseLengthAfterOverlay(view, 2, [d]);
    DensePageAfterOverlay(view, 2, [d]);
    DenseRestAfterOverlay(view, 2, [d]);
    assert [d][0] == d;
  }

  /** edit: `add({}, [a, b, c])`, then `add({skip: 2}, [d])` returns `[d]` and replaces `c`. */
  method Edit<T>(a: T, b: T, c: T, d: T) returns (first: AddResult<T>, second: AddResult<T>, all: seq<Option<T>>)
    ensures first == Added([a, b, c]) && second == Added([d])
    ensures |all| == 3 && all[0] == Some(a) && all[1] == Some(b) && all[2] == Some(d)
  {
    var cache := new CollectionCache<string, T>();
    first := cache.AddSync(View, None, ArrayValue([a, b, c]));
    second := cache.AddSync(View, Some(2), ArrayValue([d]));
    all := cache.AllSync(View);
    ReplaceLast(a, b, c, d);
  }

  /** Writing `d` at skip 9 past the first page: 10 slots, holes between `c` and `d`. */
  lemma WritePastEnd<T>(a: T, b: T, c: T, d: T)
    ensures var all := Dense(Overlay(Overlay(map[], 0, [a, b, c]), 9, [d]));
      && |all| == 10
      && all[0] == Some(a) && all[1] == Some(b) && all[2] == Some(c)
      && (forall i :: 3 <= i < 9 ==> all[i] == None)
      && all[9] == Some(d)
  {
    var view := Overlay(map[], 0, [a, b, c]);
    FirstPage(a, b, c);
    DenseLengthAfterOverlay(view, 9, [d]);
    DensePageAfterOverlay(view, 9, [d]);
    DenseRestAfterOverlay(view, 9, [d]);
    assert [d][0] == d;
  }

  /** editSparse: `add({}, [a, b, c])`, then `add({skip: 9}, [d])`; `all({})` then has 10 slots. */
  method EditSparse<T>(a: T, b: T, c: T, d: T) returns (all: seq<Option<T>>)
    ensures |all| == 10
    ensures all[0] == Some(a) && all[1] == Some(b) && all[2] == Some(c)
    ensures forall i :: 3 <= i < 9 ==> all[i] == None
    ensures all[9] == Some(d)
  {
    var cache := new CollectionCache<string, T>();
    var _ := cache.AddSync(View, None, ArrayValue([a, b, c]));
    var _ := cache.AddSync(View, Some(9), ArrayValue([d]));
    all := cache.AllSync(View);
    WritePastEnd(a, b, c, d);
  }

  /** The two reads of the get test: everything from position 0, and one slot from position 1. */
  lemma ReadFirstPage<T>(a: T, b: T, c: T)
    ensures var dense := Dense(Overlay(map[], 0, [a, b, c]));
      && Slice(dense, 0, None) == [Some(a), Some(b), Some(c)]
      && Slice(dense, 1, Some(2)) == [Some(b)]
  {
    var dense := Dense(Overlay(map[], 0, [a, b, c]));
    FirstPage(a, b, c);
    SliceInRange(dense, 0, None);
    SliceInRange(dense, 1, Some(2));
  }

  /** get: after `add({}, [a, b, c])`, `get({})` returns all three, `get({skip: 1, limit: 1})` only `b`. */
  method GetRange<T>(a: T, b: T, c: T) returns (everything: seq<Option<T>>, second: seq<Option<T>>)
    ensures everything == [Some(a), Some(b), Some(c)]
    ensures second == [Some(b)]
  {
    var cache := new CollectionCache<string, T>();
    var _ := cache.AddSync(View, None, ArrayValue([a, b, c]));
    everything := cache.GetSync(View, None, None);
    second := cache.GetSync(View, Some(1), Some(1));
    ReadFirstPage(a, b, c);
  }

  /** A `data` argument that is not an array is rejected, and the view is never created. */
  method RejectNonArray<T>() returns (r: AddResult<T>, all: seq<Option<T>>)
    ensures r == Rejected("Data must be an array.")
    ensures all == []
  {
    var cache := new CollectionCache<string, T>();
    r := cache.AddSync(View, None, OtherValue);
    all := cache.AllSync(View);
  }
}
