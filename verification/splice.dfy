/** The two uses of Array.prototype.splice (ECMA-262, section 23.1.3.31 in
    the ES2023 numbering) that the board makes, on non-negative indices:
    `a.splice(start, 1)` removes at most one element, and
    `a.splice(start, 0, x)` inserts one element, an index past the end
    being clamped to the length (so that it appends). */
module Splice {

  function Min(a: nat, b: nat): nat { if a <= b then a else b }

  /** The array left by `a.splice(i, 1)` when `i` is a position of `a`. */
  function RemoveAt<T>(s: seq<T>, i: nat): (r: seq<T>)
    requires i < |s|
    ensures |r| == |s| - 1
    ensures forall k :: 0 <= k < i ==> r[k] == s[k]
    ensures forall k :: i <= k < |r| ==> r[k] == s[k + 1]
  {
    s[..i] + s[i + 1..]
  }

  /** `a.splice(start, 1)` for any non-negative start: the array left and
      the array of removed elements, empty when `start` is past the end. */
  function DeleteOne<T>(s: seq<T>, start: nat): (r: (seq<T>, seq<T>))
    ensures |r.0| + |r.1| == |s|
    ensures |r.1| == 1 <==> start < |s|
    ensures |r.1| <= 1
    ensures r.0[..Min(start, |s|)] + r.1 + r.0[Min(start, |s|)..] == s
    ensures multiset(r.0) + multiset(r.1) == multiset(s)
  {
    if start < |s| then
      RemoveAtMultiset(s, start);
      assert s == s[..start] + [s[start]] + s[start + 1..];
      (RemoveAt(s, start), [s[start]])
    else
      (s, [])
  }

  /** The array left by `a.splice(start, 0, x)`: `x` lands at
      `min(start, |a|)` and everything from there on moves up by one. */
  function InsertAt<T>(s: seq<T>, start: nat, x: T): (r: seq<T>)
    ensures |r| == |s| + 1
    ensures r[Min(start, |s|)] == x
    ensures forall k :: 0 <= k < Min(start, |s|) ==> r[k] == s[k]
    ensures forall k :: Min(start, |s|) <= k < |s| ==> r[k + 1] == s[k]
  {
    var j := Min(start, |s|);
    s[..j] + [x] + s[j..]
  }

  /** Removing an element loses exactly that element. */
  lemma RemoveAtMultiset<T>(s: seq<T>, i: nat)
    requires i < |s|
    ensures multiset(RemoveAt(s, i)) + multiset{s[i]} == multiset(s)
  {
    assert s == s[..i] + [s[i]] + s[i + 1..];
  }

  /** Inserting an element adds exactly that element. */
  lemma InsertAtMultiset<T>(s: seq<T>, start: nat, x: T)
    ensures multiset(InsertAt(s, start, x)) == multiset(s) + multiset{x}
  {
    var j := Min(start, |s|);
    assert s == s[..j] + s[j..];
  }

  /** Putting a removed element back where it was restores the array. */
  lemma InsertAfterRemove<T>(s: seq<T>, i: nat)
    requires i < |s|
    ensures InsertAt(RemoveAt(s, i), i, s[i]) == s
  {
    var r := InsertAt(RemoveAt(s, i), i, s[i]);
    assert forall k :: 0 <= k < |s| ==> r[k] == s[k];
  }

  /** Removing an inserted element restores the array. */
  lemma RemoveAfterInsert<T>(s: seq<T>, start: nat, x: T)
    ensures RemoveAt(InsertAt(s, start, x), Min(start, |s|)) == s
  {
    var r := RemoveAt(InsertAt(s, start, x), Min(start, |s|));
    assert forall k :: 0 <= k < |s| ==> r[k] == s[k];
  }
}
