/**
 The list surgery the board performs on a column's items, written as pure
 functions over sequences. `Splice` is the value-level reading of
 JavaScript's `Array.prototype.splice(start, deleteCount, ...items)` for
 in-range arguments; `RemoveAt` and `InsertAt` are the two calls the drag
 handler makes.
 */
module Lists {

  /** The list `s` after `deleteCount` elements at `start` are replaced by `items`. */
  function Splice<T>(s: seq<T>, start: nat, deleteCount: nat, items: seq<T>): (r: seq<T>)
    requires start + deleteCount <= |s|
    ensures |r| == |s| - deleteCount + |items|
    ensures forall k :: 0 <= k < start ==> r[k] == s[k]
    ensures forall k :: 0 <= k < |items| ==> r[start + k] == items[k]
    ensures forall k :: start + deleteCount <= k < |s| ==> r[k - deleteCount + |items|] == s[k]
  {
    s[..start] + items + s[start + deleteCount..]
  }

  /** `splice(i, 1)`: drop the element at index `i`. */
  function RemoveAt<T>(s: seq<T>, i: nat): (r: seq<T>)
    requires i < |s|
    ensures |r| == |s| - 1
    ensures forall k :: 0 <= k < i ==> r[k] == s[k]
    ensures forall k :: i <= k < |r| ==> r[k] == s[k + 1]
    ensures multiset(r) + multiset{s[i]} == multiset(s)
  {
    assert s == s[..i] + [s[i]] + s[i + 1..];
    Splice(s, i, 1, [])
  }

  /** `splice(i, 0, x)`: put `x` at index `i`, shifting the tail right. */
  function InsertAt<T>(s: seq<T>, i: nat, x: T): (r: seq<T>)
    requires i <= |s|
    ensures |r| == |s| + 1
    ensures r[i] == x
    ensures forall k :: 0 <= k < i ==> r[k] == s[k]
    ensures forall k :: i < k < |r| ==> r[k] == s[k - 1]
    ensures multiset(r) == multiset(s) + multiset{x}
  {
    assert s == s[..i] + s[i..];
    Splice(s, i, 0, [x])
  }

  /** Putting the removed element back where it was restores the list. */
  lemma InsertRemovedRestores<T>(s: seq<T>, i: nat)
    requires i < |s|
    ensures InsertAt(RemoveAt(s, i), i, s[i]) == s
  {
    var r := InsertAt(RemoveAt(s, i), i, s[i]);
    assert forall k :: 0 <= k < |s| ==> r[k] == s[k];
  }

  /** Removing what was just inserted restores the list. */
  lemma RemoveInsertedRestores<T>(s: seq<T>, i: nat, x: T)
    requires i <= |s|
    ensures RemoveAt(InsertAt(s, i, x), i) == s
  {
    var r := RemoveAt(InsertAt(s, i, x), i);
    assert forall k :: 0 <= k < |s| ==> r[k] == s[k];
  }

  /** Mapping a projection over a list commutes with removing an element. */
  lemma MapRemoveAt<A, B>(f: A -> B, s: seq<A>, i: nat)
    requires i < |s|
    ensures Map(f, RemoveAt(s, i)) == RemoveAt(Map(f, s), i)
  {
  }

  /** Mapping a projection over a list commutes with inserting an element. */
  lemma MapInsertAt<A, B>(f: A -> B, s: seq<A>, i: nat, x: A)
    requires i <= |s|
    ensures Map(f, InsertAt(s, i, x)) == InsertAt(Map(f, s), i, f(x))
  {
  }

  /** The list of `f` applied to each element, in order. */
  function Map<A, B>(f: A -> B, s: seq<A>): (r: seq<B>)
    ensures |r| == |s|
    ensures forall k :: 0 <= k < |s| ==> r[k] == f(s[k])
  {
    seq(|s|, k requires 0 <= k < |s| => f(s[k]))
  }
}
