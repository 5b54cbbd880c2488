# collection-cache in Dafny

A model of `CollectionCache` from `collection-cache`, a cache for paginated
collections. A client adds pages of records with a `skip` offset. It reads back
ranges with `skip` and `limit`, or asks for everything it holds. Pages are grouped
into views by a key that the cache derives from the request's other options (sort
order, filters, ...). Each view's data is a plain JavaScript object whose property
names are absolute positions. Positions never written are holes, and a read
returns them as `undefined`.

The model has five modules:

- `Wrappers`: `Option`, standing for a value that may be `undefined`.
- `JsArray`: `Array.prototype.slice` on a non-negative start and an optional end.
- `Sparse`: a view's data as a `map<nat, T>`.
  - `Dense` is the array `toArray` builds from it, with `None` for holes.
  - `Overlay` is the effect of writing a page.
  - `LastKey` stands for `_.keys(obj)[keys.length - 1]`: it returns the highest
    written position.
  - `ToArray` is the loop of `toArray` and is proved to compute `Dense`.
- `Cache`: the class `CollectionCache`. Its field `cache` maps view keys to view
  data. `AddSync`, `GetSync` and `AllSync` are its synchronous operations.
  - `AddSync` updates the field in place with the source's loop.
  - The ghost function `Get` is what a read returns, and the lemma `GetSlots`
    states what `Get` means.
- `CacheScenarios`: the repository's tests, written as client code with the
  expectations as postconditions.

Three behaviours of the code as written are stated as lemmas, and the model
follows the code:

- A read with a `limit` but no `skip` computes `undefined + limit`, which is
  `NaN`, and so returns the whole view (`LimitWithoutSkipReturnsAll`).
- A read with `skip` 0 and `limit` 0 has end `0 || undefined` and also returns
  the whole view (`ZeroSkipZeroLimitReturnsAll`).
- The sparse-write warning compares `skip` with `.length` of a plain object,
  which is `undefined`, so it can never fire (`SparseWarningNeverFires`).

## Model

| member | source | states |
|---|---|---|
| Sparse.HighestExists | index.js:167-168 | every view holding at least one record has a highest written position, which `_.keys(obj)[keys.length - 1]` names |
| Sparse.DenseLength | index.js:165-176 | the length of `toArray`'s result is one more than the highest written position; it is 0 for an empty view, and every written position lies below it |
| Sparse.DenseSlots | index.js:165-176 | the array `toArray` builds is empty for an empty view and ends in a written slot otherwise; every written position holds its record and every other slot is a hole |
| Sparse.LastKey | index.js:167-168 | the last key is absent exactly when the view is empty; otherwise it is a written position no smaller than any other |
| Sparse.ToArray | index.js:165-176 | the `while (i++ < length)` loop copies `obj[i]` for every position up to the last key, which yields the dense array of the view |
| Sparse.OverlaySlots | index.js:122-124 | after a page is written at `skip`, the view holds the old positions plus `skip .. skip + n - 1`; record `i` sits at `skip + i`, and every other position keeps its old record |
| Sparse.OverlayStep | index.js:122-124 | one iteration of the write loop stores `data[i]` at `skip + i` on top of the first `i` writes |
| Sparse.DenseLengthAfterOverlay | index.js:122-124 | after a non-empty page is written, the dense length is the larger of the old length and `skip + n` |
| Sparse.DensePageAfterOverlay | index.js:122-124 | after a page is written, the dense array shows record `i` at position `skip + i` |
| Sparse.DenseRestAfterOverlay | index.js:122-124 | after a page is written, every slot outside it is unchanged, or a hole where the array grew |
| Sparse.DenseAfterAppend | index.js:118-124 | a page written at or past the end appends to the dense array, after `skip - length` holes |
| Sparse.DenseAfterOverwrite | index.js:122-124 | a page written inside the dense array replaces exactly that segment |
| JsArray.Slice | index.js:57 | `slice(start, end)` keeps the elements from `start` up to `end`, or up to the end of the array when `end` is undefined, clamped to the length |
| JsArray.SliceInRange | index.js:57 | with in-range bounds, `slice` is the subsequence between them |
| Cache.SparseWarningNeverFires | index.js:118-120 | `skip > data.length + 1` is false for every skip: `PlainObjectLength` is the object's undefined `length`, and `SkipsPastEnd` compares against `NaN` |
| Cache.GetSlots | index.js:50-65 | a read of a key with no view returns `[]`; slot `j` is position `skip + j` of the view; with no usable end it returns everything from `skip` on; with both skip and limit it returns `limit` slots clamped to the dense length |
| Cache.CollectionCache.constructor | index.js:28-33 | a new cache holds no views |
| Cache.CollectionCache.GetSync | index.js:50-65 | returns the view's dense array sliced from `StartIndex` (`skip`, or 0 when it is missing, line 52) to `EndIndex` (line 53: `skip + limit`, or the end of the view when either is missing, which makes the sum `NaN`, or when the sum is 0), or `[]` without a view; it changes nothing |
| Cache.CollectionCache.AllSync | index.js:77-82 | returns the read with skip 0 and no limit, which is the whole dense view, or `[]` |
| Cache.CollectionCache.AddSync | index.js:98-131 | rejects a non-array with "Data must be an array." and leaves the cache unchanged; otherwise it creates the view if missing, writes the page at `skip` (default 0), leaves every other view unchanged, and returns the page. The warning guard at line 118 is `SkipsPastEnd(skip, PlainObjectLength(data))` |
| Cache.GetAfterAdd | index.js:50-58 | after a page is added at `skip`, reading with that skip and the page's length as limit returns exactly the page; the only exception is an empty page at skip 0, whose end, the sum 0, turns into `undefined` and reads to the end |
| Cache.AddLeavesOtherViews | index.js:109-124 | adding a page under one key changes no read under any other key |
| Cache.LimitWithoutSkipReturnsAll | index.js:52-53 | a read with a limit and no skip returns the same as a read of the whole view |
| Cache.ZeroSkipZeroLimitReturnsAll | index.js:52-53 | a read with skip 0 and limit 0 returns the whole view |
| CacheScenarios.FirstPage | test/index.test.js:55-58 | three records added at skip 0 fill positions 0, 1 and 2 and nothing more |
| CacheScenarios.SparsePage | test/index.test.js:38-50 | three records added at skip 10 give 13 slots: 10 holes, then the records |
| CacheScenarios.AddSparse | test/index.test.js:38-50 | `add({skip: 10}, [1, 2, 3])` returns the page; `all({})` then has length 13, with 10 holes and the records last |
| CacheScenarios.ReplaceLast | test/index.test.js:52-66 | writing one record at skip 2 over a three-record page replaces the third record and keeps the length |
| CacheScenarios.Edit | test/index.test.js:52-66 | both adds return their pages, and the view then reads `[1, 2, 4]` |
| CacheScenarios.WritePastEnd | test/index.test.js:68-85 | writing one record at skip 9 after a three-record page gives 10 slots, with holes at 3 to 8 |
| CacheScenarios.EditSparse | test/index.test.js:68-85 | `all({})` after those two adds has length 10, with the new record last |
| CacheScenarios.ReadFirstPage | test/index.test.js:87-103 | the whole three-record view reads as all three records, and the range from position 1 of length 1 reads as the second |
| CacheScenarios.GetRange | test/index.test.js:87-103 | `get({})` returns all three records and `get({skip: 1, limit: 1})` returns only the second |
| CacheScenarios.RejectNonArray | index.js:98-103 | adding a non-array is rejected and creates no view, so `all({})` is empty |

## Left out

- `get`, `all` and `add` wrap the synchronous operations in a `Promise`, and the
  synchronous operations also call an optional `resolve`/`reject` callback.
  Neither is modelled: the model returns the value the callback would receive.
- `getCacheKey` (index.js:142-156) is not modelled. The view key is an opaque value
  `K`. As written, the function returns the object that `_.forOwn` yields, not the
  string it builds. As a property name, every such object coerces to the same
  string, so in practice all requests share one view. Every theorem here holds for
  any key function, including that one.
- The `skipKey` and `limitKey` options are not modelled; the model uses the default
  names `skip` and `limit`. With a custom `skipKey`, the `{skip: 0}` default in
  `addSync` would not apply to the key actually used.
- JavaScript coercions outside non-negative integers are not modelled: negative,
  fractional, `NaN` or string `skip` and `limit` values, and `toArray` comparing
  `i` with a string key. Skip and limit are `nat` values that may be absent.
- Positions are modelled only as exact integers below 2^32 - 1, the largest array
  index plus one. A write at `skip + i` of 2^32 - 1 or more creates a property that
  is not an array index. `_.keys` lists such properties after the index keys, in
  insertion order. So `LastKey` would no longer be the highest position, and
  `ToArray` would no longer describe `toArray`. Above 2^53, `skip + i` also loses
  precision.
- AddSync, GetSync: `None` for skip stands for a request with no `skip`
  property. An explicit `skip: undefined` is not modelled. `_.extend({skip: 0},
  options)` copies it over the default, every write then lands on the single
  property `"NaN"`, and every later read of that view is empty.
- The `{data: {...}}` wrapper around each view is modelled as the data map itself.
- `console.warn` output is not modelled. Only its guard is modelled, and the lemma
  above proves that the guard never holds.
- An `Error` object is modelled as its message.
- GetSync: the model always assumes an options object. `getSync()` or
  `getSync(null)` throws a `TypeError` at index.js:52, where `options[skipKey]` is
  read without a guard, so `get()` returns a rejected `Promise`. `allSync` and
  `addSync` treat a missing options object as `{}` through `_.extend`
  (index.js:81, 105-107), which is what `AllSync` and `AddSync` model.
- `gulpfile.js` and the test harness are not part of this model.
