/** The part of JavaScript's `Array.prototype.slice` the cache relies on. */
module JsArray {
  import opened Wrappers

  /**
   * `s.slice(start, end)` for a non-negative `start` and an `end` that is either a
   * non-negative number or `undefined` (`None`, meaning "to the end of the array").
   * Both bounds are clamped to the length of `s`; an empty range gives `[]`.
   */
  function Slice<A>(s: seq<A>, start: nat, end: Option<nat>): (r: seq<A>)
    // every element of the result is the element of s at the same offset from start,
    // inside s and before end
    ensures forall j :: 0 <= j < |r| ==>
      start + j < |s| && (end.None? || start + j < end.value) && r[j] == s[start + j]
    // and the result is as long as possible: it stops only at the end of s or at end
    ensures start + |r| >= |s| || (end.Some? && start + |r| >= end.value)
  {
    var from := if start < |s| then start else |s|;
    var to := if end.Some? && end.value < |s| then end.value else |s|;
    if from < to then s[from..to] else []
  }

  /** Within bounds, `slice` is the plain subsequence. */
  lemma SliceInRange<A>(s: seq<A>, start: nat, end: Option<nat>)
    requires start <= |s|
    requires end.Some? ==> start <= end.value <= |s|
    ensures Slice(s, start, end) == if end.Some? then s[start..end.value] else s[start..]
  {
  }
}
