/** `ArrayFun.kt`: visiting an array from its last element to its first. */
module ArrayFun {

  /** `s` read backwards. */
  function Reverse<T>(s: seq<T>): seq<T>
  {
    if s == [] then [] else [s[|s| - 1]] + Reverse(s[..|s| - 1])
  }

  /** Element `k` of the reversed sequence is element `|s| - 1 - k` of `s`. */
  lemma {:induction false} ReverseIndex<T>(s: seq<T>, k: nat)
    requires k < |s|
    ensures |Reverse(s)| == |s|
    ensures Reverse(s)[k] == s[|s| - 1 - k]
  {
    ReverseLength(s);
    if k > 0 {
      ReverseIndex(s[..|s| - 1], k - 1);
    }
  }

  lemma {:induction false} ReverseLength<T>(s: seq<T>)
    ensures |Reverse(s)| == |s|
  {
    if s != [] {
      ReverseLength(s[..|s| - 1]);
    }
  }

  /** Reading backwards twice gives the sequence back. */
  lemma ReverseTwice<T>(s: seq<T>)
    ensures Reverse(Reverse(s)) == s
  {
    ReverseLength(s);
    ReverseLength(Reverse(s));
    forall k | 0 <= k < |s|
      ensures Reverse(Reverse(s))[k] == s[k]
    {
      ReverseIndex(Reverse(s), k);
      ReverseIndex(s, |s| - 1 - k);
    }
  }

  /**
   * `Array.forEachReversed(action)`: calls `action` on `this[i]` for `i` from
   * `lastIndex` down to 0. The calls are returned as the sequence of the
   * arguments `action` received, in the order it received them; the array is
   * only read.
   */
  method ForEachReversed<T>(a: array<T>) returns (calls: seq<T>)
    ensures |calls| == a.Length
    ensures forall k :: 0 <= k < a.Length ==> calls[k] == a[a.Length - 1 - k]
    ensures calls == Reverse(a[..])
  {
    calls := [];
    var i := a.Length - 1;
    while i >= 0
      invariant -1 <= i < a.Length
      invariant |calls| == a.Length - 1 - i
      invariant forall k :: 0 <= k < |calls| ==> calls[k] == a[a.Length - 1 - k]
    {
      calls := calls + [a[i]];   // action(this[i])
      i := i - 1;
    }
    ReverseLength(a[..]);
    forall k | 0 <= k < a.Length
      ensures calls[k] == Reverse(a[..])[k]
    {
      ReverseIndex(a[..], k);
    }
  }
}
