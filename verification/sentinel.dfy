/** The C tables of this model end with a sentinel entry whose key is NULL, and
    every loop over them stops there. These two scans are written once here. */
module Sentinel {
  import opened Wrappers

  /** The number of entries before the first one `isEnd` marks: the length a
      `while (table[n].key) n++` loop counts. */
  function LiveLength<T>(t: seq<T>, isEnd: T -> bool): (n: nat)
    ensures n <= |t|
    ensures forall i :: 0 <= i < n ==> !isEnd(t[i])
    ensures n < |t| ==> isEnd(t[n])
  {
    if t == [] || isEnd(t[0]) then 0 else 1 + LiveLength(t[1..], isEnd)
  }

  /** The index a `for (i = 0; table[i].key; i++) if (hit) return i;` loop
      returns, or `None` when it runs into the sentinel first. */
  function FindLive<T>(t: seq<T>, isEnd: T -> bool, hit: T -> bool): (r: Option<nat>)
    ensures r.Some? ==> r.value < LiveLength(t, isEnd) && hit(t[r.value])
    ensures r.Some? ==> forall j :: 0 <= j < r.value ==> !hit(t[j])
    ensures r.None? ==> forall j :: 0 <= j < LiveLength(t, isEnd) ==> !hit(t[j])
  {
    if t == [] || isEnd(t[0]) then None
    else if hit(t[0]) then Some(0)
    else
      match FindLive(t[1..], isEnd, hit)
      case Some(k) => Some(k + 1)
      case None => None
  }
}
