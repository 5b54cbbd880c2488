/**
 * A view's data: a plain JavaScript object whose property names are absolute
 * integer positions, modelled as a map from position to record. `Dense` is the
 * array `toArray` produces from it, with `None` for the positions never written.
 */
module Sparse {
  import opened Wrappers

  /** `obj[i]`: the record at position `i`, or `undefined` when none was written there. */
  function Lookup<T>(obj: map<nat, T>, i: nat): Option<T> {
    if i in obj then Some(obj[i]) else None
  }

  /** `k` is the highest written position of `obj`. */
  ghost predicate IsHighest<T>(obj: map<nat, T>, k: nat) {
    k in obj && forall j :: j in obj ==> j <= k
  }

  /** Every object with at least one written position has a highest one. */
  lemma {:induction false} HighestExists<T>(obj: map<nat, T>)
    requires obj != map[]
    ensures exists k: nat :: IsHighest(obj, k)
    decreases obj.Keys
  {
    var k :| k in obj;
    var rest := obj - {k};
    assert forall j :: j in obj && j != k ==> j in rest;
    if rest == map[] {
      assert IsHighest(obj, k);
    } else {
      HighestExists(rest);
      var h: nat :| IsHighest(rest, h);
      if h < k {
        assert IsHighest(obj, k);
      } else {
        assert IsHighest(obj, h);
      }
    }
  }

  /** One more than the highest written position, or 0 for an empty object. */
  ghost function DenseLength<T>(obj: map<nat, T>): (n: nat)
    ensures forall k :: k in obj ==> k < n
    ensures obj == map[] ==> n == 0
    ensures obj != map[] ==> n > 0 && (n - 1) as nat in obj
  {
    if obj == map[] then 0
    else
      HighestExists(obj);
      var k: nat :| IsHighest(obj, k);
      k + 1
  }

  /** The dense array of a view: one slot per position up to the highest written one. */
  ghost function Dense<T>(obj: map<nat, T>): seq<Option<T>> {
    seq(DenseLength(obj), i requires 0 <= i => Lookup(obj, i))
  }

  /**
   * What the dense array holds: nothing for an empty object; otherwise its last
   * slot is written, every written position has a slot holding its record, and
   * every other slot is a hole.
   */
  lemma DenseSlots<T>(obj: map<nat, T>)
    ensures var r := Dense(obj);
      && (obj == map[] ==> r == [])
      && (obj != map[] ==> |r| > 0 && r[|r| - 1].Some?)
      && (forall k :: k in obj ==> k < |r| && r[k] == Some(obj[k]))
      && (forall i :: 0 <= i < |r| && i !in obj ==> r[i] == None)
  {
  }

  /**
   * The view `obj` after `items` were written, in order, at positions `s, s + 1, ...`:
   * each write replaces whatever the position held before.
   */
  function Overlay<T>(obj: map<nat, T>, s: nat, items: seq<T>): map<nat, T>
    decreases |items|
  {
    if items == [] then obj
    else
      var n := |items| - 1;
      Overlay(obj, s, items[..n])[s + n := items[n]]
  }

  /**
   * What a write leaves in the view: the positions written before and those of
   * the page; the page's records at their positions; every other position as it was.
   */
  lemma {:induction false} OverlaySlots<T>(obj: map<nat, T>, s: nat, items: seq<T>)
    ensures var r := Overlay(obj, s, items);
      && (forall k :: k in r <==> k in obj || s <= k < s + |items|)
      && (forall i :: 0 <= i < |items| ==> r[s + i] == items[i])
      && (forall k :: k in obj && !(s <= k < s + |items|) ==> r[k] == obj[k])
    decreases |items|
  {
    if items != [] {
      var n := |items| - 1;
      OverlaySlots(obj, s, items[..n]);
      var shorter := Overlay(obj, s, items[..n]);
      forall i | 0 <= i < n ensures shorter[s + i] == items[i] {
        assert items[..n][i] == items[i];
      }
    }
  }

  /** The loop step of a write: the first `i + 1` records are the first `i` and then record `i`. */
  lemma OverlayStep<T>(obj: map<nat, T>, s: nat, items: seq<T>, i: nat)
    requires i < |items|
    ensures Overlay(obj, s, items[..i + 1]) == Overlay(obj, s, items[..i])[s + i := items[i]]
  {
    assert items[..i + 1][..i] == items[..i];
  }

  /**
   * `_.keys(obj)[keys.length - 1]`: JavaScript lists integer-like property names in
   * ascending order, so the last key is the highest written position, and an
   * empty object has none (`undefined`).
   */
  method LastKey<T>(obj: map<nat, T>) returns (last: Option<nat>)
    ensures last.None? <==> obj == map[]
    ensures last.Some? ==> last.value in obj && forall k :: k in obj ==> k <= last.value
  {
    last := None;
    var unseen := obj.Keys;
    while unseen != {}
      invariant unseen <= obj.Keys
      invariant last.None? ==> unseen == obj.Keys
      invariant last.Some? ==> last.value in obj
      invariant last.Some? ==> forall k :: k in obj && k !in unseen ==> k <= last.value
      decreases unseen
    {
      var k :| k in unseen;
      if last.None? || last.value < k {
        last := Some(k);
      }
      unseen := unseen - {k};
    }
  }

  /**
   * `toArray(obj)`: `i` counts up from -1 while `i++ < length`, copying `obj[i]`
   * (or `undefined`) into `result[i]`. With no keys, `length` is `undefined` and
   * the comparison is false, so the result is empty.
   */
  method ToArray<T>(obj: map<nat, T>) returns (result: seq<Option<T>>)
    ensures result == Dense(obj)
  {
    var length := LastKey(obj);
    result := [];
    var i: int := -1;
    while length.Some? && i < length.value
      invariant length.None? ==> i == -1
      invariant length.Some? ==> -1 <= i <= length.value
      invariant |result| == i + 1
      invariant forall j :: 0 <= j < |result| ==> result[j] == Lookup(obj, j)
      decreases if length.Some? then length.value - i else 0
    {
      i := i + 1;
      result := result + [Lookup(obj, i)];
    }
    assert |result| == |Dense(obj)|;
  }

  /**
   * Writing a non-empty page at `s` makes the dense array just long enough to
   * hold both the old contents and the page.
   */
  lemma DenseLengthAfterOverlay<T>(obj: map<nat, T>, s: nat, items: seq<T>)
    requires items != []
    ensures var n := |Dense(obj)|;
      |Dense(Overlay(obj, s, items))| == if n < s + |items| then s + |items| else n
  {
    var written := Overlay(obj, s, items);
    OverlaySlots(obj, s, items);
    assert s + (|items| - 1) in written;
    if obj != map[] {
      assert (DenseLength(obj) - 1) as nat in written;
    }
  }

  /** After writing a page at `s`, the dense array shows record `i` of the page at position `s + i`. */
  lemma DensePageAfterOverlay<T>(obj: map<nat, T>, s: nat, items: seq<T>)
    ensures var after := Dense(Overlay(obj, s, items));
      forall i :: 0 <= i < |items| ==> s + i < |after| && after[s + i] == Some(items[i])
  {
    var written := Overlay(obj, s, items);
    OverlaySlots(obj, s, items);
    DenseSlots(written);
    forall i | 0 <= i < |items| ensures s + i < |Dense(written)| && Dense(written)[s + i] == Some(items[i]) {
      assert written[s + i] == items[i];
    }
  }

  /**
   * Writing a page at `s` leaves every slot outside the page as it was, or a
   * hole where the array grew past its old end.
   */
  lemma DenseRestAfterOverlay<T>(obj: map<nat, T>, s: nat, items: seq<T>)
    ensures var before, after := Dense(obj), Dense(Overlay(obj, s, items));
      forall p :: 0 <= p < |after| && !(s <= p < s + |items|) ==>
        after[p] == if p < |before| then before[p] else None
  {
    var written := Overlay(obj, s, items);
    OverlaySlots(obj, s, items);
    DenseSlots(obj);
    DenseSlots(written);
  }

  /** `n` unwritten slots. */
  function Holes<T>(n: nat): seq<Option<T>> {
    seq(n, _ => None)
  }

  /** A page as written slots. */
  function Present<T>(items: seq<T>): seq<Option<T>> {
    seq(|items|, i requires 0 <= i < |items| => Some(items[i]))
  }

  /**
   * A page written at or past the end of the dense array appends to it: the
   * gap between the old end and `s` becomes holes.
   */
  lemma DenseAfterAppend<T>(obj: map<nat, T>, s: nat, items: seq<T>)
    requires items != [] && |Dense(obj)| <= s
    ensures Dense(Overlay(obj, s, items)) == Dense(obj) + Holes(s - |Dense(obj)|) + Present(items)
  {
    var before, after := Dense(obj), Dense(Overlay(obj, s, items));
    var expected := before + Holes(s - |before|) + Present(items);
    DenseLengthAfterOverlay(obj, s, items);
    forall p | 0 <= p < |after| ensures after[p] == expected[p] {
      if s <= p {
        DensePageAfterOverlay(obj, s, items);
        assert after[s + (p - s)] == Some(items[p - s]);
      } else {
        DenseRestAfterOverlay(obj, s, items);
      }
    }
  }

  /** A page written inside the dense array replaces that segment and nothing else. */
  lemma DenseAfterOverwrite<T>(obj: map<nat, T>, s: nat, items: seq<T>)
    requires items != [] && s + |items| <= |Dense(obj)|
    ensures Dense(Overlay(obj, s, items)) == Dense(obj)[..s] + Present(items) + Dense(obj)[s + |items|..]
  {
    var before, after := Dense(obj), Dense(Overlay(obj, s, items));
    var expected := before[..s] + Present(items) + before[s + |items|..];
    DenseLengthAfterOverlay(obj, s, items);
    forall p | 0 <= p < |after| ensures after[p] == expected[p] {
      if p < s {
        DenseRestAfterOverlay(obj, s, items);
        assert expected[p] == before[p];
      } else if p < s + |items| {
        DensePageAfterOverlay(obj, s, items);
        assert after[s + (p - s)] == Some(items[p - s]);
        assert expected[p] == Present(items)[p - s];
      } else {
        DenseRestAfterOverlay(obj, s, items);
        assert expected[p] == before[p];
      }
    }
  }
}
