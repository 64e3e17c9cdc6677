/** Small helpers shared by every route: an optional value and a first-match
    search over a collection kept in insertion (natural) order. */
module Base {

  /** A value that may be missing: JavaScript's `undefined`/`null` versus a present value. */
  datatype Option<+T> = None | Some(value: T)

  /** Index of the first element of `s` that satisfies `p`, or `|s|` when no
      element does. This is the document a MongoDB `findOne`,
      `findById` or `findOneAndDelete` picks: the first match in natural order. */
  function FirstIndex<T>(s: seq<T>, p: T -> bool): (k: nat)
    ensures k <= |s|
    ensures k < |s| ==> p(s[k])
    ensures forall j :: 0 <= j < k ==> !p(s[j])
  {
    if |s| == 0 then 0
    else if p(s[0]) then 0
    else 1 + FirstIndex(s[1..], p)
  }

  /** Appending an element never changes an existing first match, and the
      appended element is found exactly when nothing before it matches. */
  lemma FirstIndexAppend<T>(s: seq<T>, x: T, p: T -> bool)
    ensures FirstIndex(s, p) < |s| ==> FirstIndex(s + [x], p) == FirstIndex(s, p)
    ensures FirstIndex(s, p) == |s| ==> FirstIndex(s + [x], p) == if p(x) then |s| else |s| + 1
  {
    assert forall j :: 0 <= j < |s| ==> (s + [x])[j] == s[j];
    assert (s + [x])[|s|] == x;
  }

  /** `s` with the element at index `k` taken out; `s` itself when `k == |s|`. */
  function RemoveAt<T>(s: seq<T>, k: nat): seq<T>
    requires k <= |s|
  {
    if k < |s| then s[..k] + s[k + 1..] else s
  }
}
