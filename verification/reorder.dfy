/** The drag-and-drop reorder every page editor performs on drop: copy the
    list, `splice(source, 1)` the dragged element out, then
    `splice(destination, 0, element)` it back in. */
module Reorder {
  import opened Options

  /** `items.splice(i, 1)` for a position inside the list. */
  function RemoveAt<T>(s: seq<T>, i: nat): (r: seq<T>)
    requires i < |s|
    ensures |r| == |s| - 1
    ensures forall k :: 0 <= k < i ==> r[k] == s[k]
    ensures forall k :: i <= k < |r| ==> r[k] == s[k + 1]
    ensures multiset(r) + multiset{s[i]} == multiset(s)
  {
    assert s == s[..i] + [s[i]] + s[i + 1..];
    s[..i] + s[i + 1..]
  }

  /** Where `splice(i, 0, x)` puts `x` in a list of length `n`: a start
      index past the end is clamped to the end. */
  function Clamp(i: nat, n: nat): (j: nat)
    ensures j <= n
    ensures j == i || (i > n && j == n)
  {
    if i <= n then i else n
  }

  /** `items.splice(i, 0, x)`: `x` inserted before position `i`. */
  function InsertAt<T>(s: seq<T>, i: nat, x: T): (r: seq<T>)
    ensures |r| == |s| + 1
    ensures r[Clamp(i, |s|)] == x
    ensures forall k :: 0 <= k < Clamp(i, |s|) ==> r[k] == s[k]
    ensures forall k :: Clamp(i, |s|) < k < |r| ==> r[k] == s[k - 1]
    ensures multiset(r) == multiset(s) + multiset{x}
  {
    var j := Clamp(i, |s|);
    assert s == s[..j] + s[j..];
    s[..j] + [x] + s[j..]
  }

  /** The index at which the dragged element lands in a list of length `n`. */
  function Landing(n: nat, dst: nat): (j: nat)
    requires n > 0
    ensures j < n
  {
    Clamp(dst, n - 1)
  }

  /** Move the element at `src` so that it ends up at `dst`, shifting the
      elements in between by one. */
  function Reorder<T>(s: seq<T>, src: nat, dst: nat): (r: seq<T>)
    requires src < |s|
    ensures |r| == |s|
    ensures multiset(r) == multiset(s)
    ensures r[Landing(|s|, dst)] == s[src]
  {
    InsertAt(RemoveAt(s, src), dst, s[src])
  }

  /** An independent description of the move: the position in the original
      list that ends up at position `k`, when the element at `src` lands at
      `dst`. Positions outside the range between the two stay put; those
      inside shift one step towards the vacated slot. */
  function Origin(src: nat, dst: nat, k: nat): nat {
    if k == dst then src
    else if src < dst && src <= k < dst then k + 1
    else if dst < src && dst < k <= src then k - 1
    else k
  }

  /** `Reorder` is exactly the permutation `Origin` describes. */
  lemma ReorderMovesByOrigin<T>(s: seq<T>, src: nat, dst: nat, k: nat)
    requires src < |s| && k < |s|
    ensures Reorder(s, src, dst)[k] == s[Origin(src, Landing(|s|, dst), k)]
  {
  }

  /** Dropping an element where it was picked up changes nothing. */
  lemma {:induction false} ReorderSamePlace<T>(s: seq<T>, i: nat)
    requires i < |s|
    ensures Reorder(s, i, i) == s
  {
    var r := Reorder(s, i, i);
    forall k | 0 <= k < |s|
      ensures r[k] == s[k]
    {
      ReorderMovesByOrigin(s, i, i, k);
    }
  }

  /** Dragging the element back from where it landed to where it came from
      restores the original list. */
  lemma {:induction false} ReorderUndo<T>(s: seq<T>, src: nat, dst: nat)
    requires src < |s|
    ensures Reorder(Reorder(s, src, dst), Landing(|s|, dst), src) == s
  {
    var d := Landing(|s|, dst);
    var r := Reorder(s, src, dst);
    var back := Reorder(r, d, src);
    forall k | 0 <= k < |s|
      ensures back[k] == s[k]
    {
      ReorderMovesByOrigin(r, d, src, k);
      assert Landing(|r|, src) == src;
      var m := Origin(d, src, k);
      assert m < |s| && Origin(src, d, m) == k;
      ReorderMovesByOrigin(s, src, dst, m);
    }
  }

  /** What the drag library reports when a drag ends: the source position
      and, unless the element was dropped outside the list, the destination
      position. */
  datatype DropResult = DropResult(source: nat, destination: Option<nat>)

  /** The common shape of every `handleDragEnd`: a drop outside the list is
      ignored, any other drop reorders. */
  function ApplyDrop<T>(s: seq<T>, drop: DropResult): (r: seq<T>)
    requires drop.source < |s|
    ensures drop.destination.None? ==> r == s
    ensures |r| == |s| && multiset(r) == multiset(s)
    ensures drop.destination.Some? ==> r[Landing(|s|, drop.destination.value)] == s[drop.source]
  {
    match drop.destination
    case None => s
    case Some(dst) => Reorder(s, drop.source, dst)
  }

  /** The worked example: in `[a, b, c]`, dragging the first element to the
      end and the last element to the front. */
  lemma ThreeElementExample<T>(a: T, b: T, c: T)
    ensures Reorder([a, b, c], 0, 2) == [b, c, a]
    ensures Reorder([a, b, c], 2, 0) == [c, a, b]
  {
    FirstToLast(a, b, c);
    LastToFirst(a, b, c);
  }

  lemma FirstToLast<T>(a: T, b: T, c: T)
    ensures Reorder([a, b, c], 0, 2) == [b, c, a]
  {
    var s := [a, b, c];
    assert Landing(3, 2) == 2;
    ReorderMovesByOrigin(s, 0, 2, 0);
    ReorderMovesByOrigin(s, 0, 2, 1);
    ReorderMovesByOrigin(s, 0, 2, 2);
  }

  lemma LastToFirst<T>(a: T, b: T, c: T)
    ensures Reorder([a, b, c], 2, 0) == [c, a, b]
  {
    var s := [a, b, c];
    assert Landing(3, 0) == 0;
    ReorderMovesByOrigin(s, 2, 0, 0);
    ReorderMovesByOrigin(s, 2, 0, 1);
    ReorderMovesByOrigin(s, 2, 0, 2);
  }
}
