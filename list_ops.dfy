/** Editable-list operations shared by the services and staff sections of the
    salon form: append a blank entry, and drop the entry at a position the way
    `list.filter((_, i) => i !== index)` does. */
module ListOps {

  /** Keep every element whose position, counted from `start`, differs from `index`. */
  function DropPositionFrom<T>(xs: seq<T>, index: int, start: int): seq<T>
  {
    if xs == [] then []
    else (if start != index then [xs[0]] else []) + DropPositionFrom(xs[1..], index, start + 1)
  }

  /** `xs.filter((_, i) => i !== index)` */
  function DropPosition<T>(xs: seq<T>, index: int): seq<T>
  {
    DropPositionFrom(xs, index, 0)
  }

  /** A position outside the window `start .. start + |xs|` removes nothing. */
  lemma {:induction false} DropPositionFromOutside<T>(xs: seq<T>, index: int, start: int)
    requires !(start <= index < start + |xs|)
    ensures DropPositionFrom(xs, index, start) == xs
  {
    if xs != [] {
      DropPositionFromOutside(xs[1..], index, start + 1);
      assert [xs[0]] + xs[1..] == xs;
    }
  }

  /** A position inside the window removes exactly the element there. */
  lemma {:induction false} DropPositionFromInside<T>(xs: seq<T>, index: int, start: int)
    requires start <= index < start + |xs|
    ensures DropPositionFrom(xs, index, start) == xs[..index - start] + xs[index - start + 1..]
  {
    var d := index - start;
    if d == 0 {
      DropPositionFromOutside(xs[1..], index, start + 1);
      assert xs[..0] + xs[1..] == xs[1..];
    } else {
      DropPositionFromInside(xs[1..], index, start + 1);
      var tail := xs[1..];
      assert DropPositionFrom(xs, index, start) == [xs[0]] + (tail[..d - 1] + tail[d..]);
      assert xs[..d] == [xs[0]] + tail[..d - 1];
      assert xs[d + 1..] == tail[d..];
    }
  }

  /** Removing a position in range drops exactly that entry and keeps the
      others in order; any other index leaves the list as it was. */
  lemma DropPositionSpec<T>(xs: seq<T>, index: int)
    ensures 0 <= index < |xs| ==>
      |DropPosition(xs, index)| == |xs| - 1 &&
      DropPosition(xs, index) == xs[..index] + xs[index + 1..]
    ensures !(0 <= index < |xs|) ==> DropPosition(xs, index) == xs
  {
    if 0 <= index < |xs| {
      DropPositionFromInside(xs, index, 0);
    } else {
      DropPositionFromOutside(xs, index, 0);
    }
  }

  /** `xs.map(f)` */
  function Map<A, B>(f: A -> B, xs: seq<A>): (r: seq<B>)
    ensures |r| == |xs|
    ensures forall k :: 0 <= k < |xs| ==> r[k] == f(xs[k])
  {
    seq(|xs|, k requires 0 <= k < |xs| => f(xs[k]))
  }

  /** Mapping works element by element, so it distributes over concatenation. */
  lemma MapAppend<A, B>(f: A -> B, a: seq<A>, b: seq<A>)
    ensures Map(f, a + b) == Map(f, a) + Map(f, b)
  {
    var l, r := Map(f, a + b), Map(f, a) + Map(f, b);
    forall k | 0 <= k < |l| ensures l[k] == r[k] {
      if k < |a| {
        assert (a + b)[k] == a[k];
      } else {
        assert (a + b)[k] == b[k - |a|];
      }
    }
  }

  /** Appending an entry and then removing the last position restores the list. */
  lemma AppendThenDropLast<T>(xs: seq<T>, x: T)
    ensures DropPosition(xs + [x], |xs|) == xs
  {
    DropPositionSpec(xs + [x], |xs|);
    assert (xs + [x])[..|xs|] == xs;
  }
}
