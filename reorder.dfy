/**
 * The drag-and-drop reorder shared by the cart (`reorderDrills` in CartContext.jsx) and the
 * shared-training page (`handleDrop` in SharedTraining.jsx): remove the dragged element with
 * `splice(from, 1)` and insert it again with `splice(to, 0, item)`.
 */
module Reorder {
  import opened Wrappers

  /** `arr.splice(i, 1)` on an index inside the array: the array without its element `i`. */
  function RemoveAt<T>(s: seq<T>, i: int): (r: seq<T>)
    requires 0 <= i < |s|
    ensures |r| == |s| - 1
    ensures forall k :: 0 <= k < i ==> r[k] == s[k]
    ensures forall k :: i <= k < |r| ==> r[k] == s[k + 1]
  {
    s[..i] + s[i + 1..]
  }

  /** `arr.splice(i, 0, x)` on an index up to the length: `x` inserted before element `i`. */
  function InsertAt<T>(s: seq<T>, i: int, x: T): (r: seq<T>)
    requires 0 <= i <= |s|
    ensures |r| == |s| + 1 && r[i] == x
    ensures forall k :: 0 <= k < i ==> r[k] == s[k]
    ensures forall k :: i < k < |r| ==> r[k] == s[k - 1]
  {
    s[..i] + [x] + s[i..]
  }

  /**
   * The element at `from` taken out and put back at `to`. The result is a permutation of
   * the input, holds the moved element at `to`, and taking that element out again leaves
   * exactly what taking it out of the input left: every other element keeps its relative order.
   */
  function Move<T>(s: seq<T>, from: int, to: int): (r: seq<T>)
    requires 0 <= from < |s| && 0 <= to < |s|
    ensures |r| == |s| && r[to] == s[from]
    ensures RemoveAt(r, to) == RemoveAt(s, from)
    ensures multiset(r) == multiset(s)
  {
    var rest := RemoveAt(s, from);
    assert s == s[..from] + [s[from]] + s[from + 1..];
    assert rest == rest[..to] + rest[to..];
    var r := InsertAt(rest, to, s[from]);
    assert r[..to] == rest[..to] && r[to + 1..] == rest[to..];
    calc {
      multiset(r);
      multiset(rest[..to]) + multiset{s[from]} + multiset(rest[to..]);
      multiset(rest) + multiset{s[from]};
      multiset(s[..from]) + multiset(s[from + 1..]) + multiset{s[from]};
      multiset(s);
    }
    r
  }

  lemma InsertRemoved<T>(s: seq<T>, i: int)
    requires 0 <= i < |s|
    ensures InsertAt(RemoveAt(s, i), i, s[i]) == s
  {
    var rest := RemoveAt(s, i);
    assert rest[..i] == s[..i] && rest[i..] == s[i + 1..];
  }

  /** Dragging the moved element back to where it came from restores the original order. */
  lemma MoveBack<T>(s: seq<T>, from: int, to: int)
    requires 0 <= from < |s| && 0 <= to < |s|
    ensures Move(Move(s, from, to), to, from) == s
  {
    var r := Move(s, from, to);
    assert Move(r, to, from) == InsertAt(RemoveAt(s, from), from, s[from]);
    InsertRemoved(s, from);
  }

  /**
   * The guard both drop handlers apply: without a dragged index, or when an element is
   * dropped onto itself, the order stays as it is; otherwise the dragged element moves.
   */
  function Dropped<T>(s: seq<T>, dragged: Option<int>, drop: int): (r: seq<T>)
    requires dragged.Some? ==> 0 <= dragged.value < |s|
    requires 0 <= drop < |s|
    ensures |r| == |s| && multiset(r) == multiset(s)
    ensures dragged.None? || dragged.value == drop ==> r == s
    ensures dragged.Some? ==> r[drop] == s[dragged.value]
  {
    if dragged.None? || dragged.value == drop then s else Move(s, dragged.value, drop)
  }
}
