/**
 * The parts of ECMAScript's Array.prototype the store relies on: `slice`,
 * `splice(start, 1)` and `findIndex`, with their relative-index rules.
 */
module JsArray {

  /**
   * How `slice` and `splice` read an index argument: a negative index counts
   * back from the end of the array, and the result is clamped to [0, len].
   */
  function RelativeIndex(i: int, len: nat): (k: nat)
    ensures k <= len
    ensures 0 <= i <= len ==> k == i
    ensures i < 0 ==> k == if len + i >= 0 then len + i else 0
    ensures i > len ==> k == len
  {
    if i < 0 then (if len + i >= 0 then len + i else 0)
    else if i <= len then i
    else len
  }

  /** Normalising never widens the gap between two ordered indices. */
  lemma RelativeIndexGap(i: int, j: int, len: nat)
    requires i <= j
    ensures RelativeIndex(j, len) - RelativeIndex(i, len) <= j - i
  {
  }

  /** `s.slice(start, end)`: never fails; an empty range gives `[]`. */
  function Slice<T>(s: seq<T>, start: int, end: int): (r: seq<T>)
    ensures |r| <= |s|
    ensures forall i :: 0 <= i < |r| ==> RelativeIndex(start, |s|) + i < |s| && r[i] == s[RelativeIndex(start, |s|) + i]
    ensures |r| == if RelativeIndex(start, |s|) < RelativeIndex(end, |s|)
                   then RelativeIndex(end, |s|) - RelativeIndex(start, |s|) else 0
  {
    var a, b := RelativeIndex(start, |s|), RelativeIndex(end, |s|);
    if a < b then s[a..b] else []
  }

  /** The array left by `s.splice(start, 1)`: at most one element removed. */
  function SpliceOne<T>(s: seq<T>, start: int): (r: seq<T>)
    ensures RelativeIndex(start, |s|) < |s| ==> |r| == |s| - 1
    ensures RelativeIndex(start, |s|) == |s| ==> r == s
    ensures forall i :: 0 <= i < |r| ==>
              r[i] == if i < RelativeIndex(start, |s|) then s[i] else s[i + 1]
  {
    var k := RelativeIndex(start, |s|);
    if k < |s| then s[..k] + s[k + 1..] else s
  }

  /** `s.findIndex(p)`: the first index whose element satisfies `p`, or -1. */
  function FindIndex<T>(s: seq<T>, p: T -> bool): (k: int)
    ensures -1 <= k < |s|
    ensures 0 <= k ==> p(s[k]) && forall j :: 0 <= j < k ==> !p(s[j])
    ensures k == -1 <==> forall j :: 0 <= j < |s| ==> !p(s[j])
  {
    if s == [] then -1
    else if p(s[0]) then 0
    else
      var k := FindIndex(s[1..], p);
      assert forall j :: 1 <= j < |s| ==> s[j] == s[1..][j - 1];
      if k < 0 then -1 else k + 1
  }
}
