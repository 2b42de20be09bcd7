/** The list helper of the editor's service layer. */
module Utils {
  import opened Seqs

  /** What getIntersection returns: the elements of `first` that `second` contains,
      in the order of `first`, duplicates kept. */
  function Intersection(first: seq<int>, second: seq<int>): seq<int>
  {
    Filter(first, x => x in second)
  }

  /** The loop of getIntersection, appending each element of `first` that `second`
      contains. */
  method GetIntersection(first: seq<int>, second: seq<int>) returns (intersection: seq<int>)
    ensures intersection == Intersection(first, second)
    ensures forall x | x in intersection :: x in first && x in second
    ensures IsSubsequence(intersection, first)
    ensures forall x | x in first && x in second :: multiset(intersection)[x] == multiset(first)[x]
  {
    intersection := [];
    var i := 0;
    while i < |first|
      invariant 0 <= i <= |first|
      invariant intersection == Intersection(first[..i], second)
    {
      FilterAppend(first[..i], [first[i]], x => x in second);
      assert first[..i + 1] == first[..i] + [first[i]];
      if first[i] in second {
        intersection := intersection + [first[i]];
      }
      i := i + 1;
    }
    assert first[..i] == first;
    forall x | x in first && x in second
      ensures multiset(intersection)[x] == multiset(first)[x]
    {
      FilterMultiplicity(first, y => y in second, x);
    }
    forall x | x in intersection
      ensures x in first && x in second
    {
      FilterMembers(first, y => y in second, x);
    }
    FilterIsSubsequence(first, y => y in second);
  }

  /** Nothing survives an intersection with an empty list. */
  lemma {:induction false} IntersectionWithEmpty(first: seq<int>)
    ensures Intersection(first, []) == []
  {
    if first != [] {
      IntersectionWithEmpty(first[1..]);
    }
  }

  /** Intersecting a list with itself gives the list back, in order and with its
      duplicates. */
  lemma IntersectionWithItself(a: seq<int>)
    ensures Intersection(a, a) == a
  {
    FilterAll(a, x => x in a);
  }
}
