/** The two passenger-list helpers shared by holograms and interaction boxes
    (Hologram.addElement / removeElement and their copies in InteractionBox):
    a specification on sequences and the copying array loops of the source. */
module Passengers {

  ghost predicate NoDuplicates(xs: seq<int>) {
    forall i, j :: 0 <= i < j < |xs| ==> xs[i] != xs[j]
  }

  /** "Add the element if it is absent": the list itself when present, else the
      list with the element appended. */
  function AddElement(xs: seq<int>, e: int): seq<int>
  {
    if e in xs then xs else xs + [e]
  }

  /** What addElement promises: the element is present afterwards, nothing
      else is added, the old list is a prefix of the new one, and a list
      without duplicates stays without duplicates. */
  lemma AddElementFacts(xs: seq<int>, e: int)
    ensures e in AddElement(xs, e)
    ensures forall x :: x in AddElement(xs, e) <==> x in xs || x == e
    ensures |xs| <= |AddElement(xs, e)| <= |xs| + 1 && AddElement(xs, e)[..|xs|] == xs
    ensures e in xs <==> AddElement(xs, e) == xs
    ensures multiset(AddElement(xs, e))[e] == if e in xs then multiset(xs)[e] else 1
    ensures NoDuplicates(xs) ==> NoDuplicates(AddElement(xs, e))
  {
  }

  /** "Remove every occurrence", keeping the other elements in order. */
  function RemoveElement(xs: seq<int>, e: int): (r: seq<int>)
    ensures e !in r
    ensures e !in xs ==> r == xs
  {
    if xs == [] then []
    else
      var init, last := xs[..|xs| - 1], xs[|xs| - 1];
      assert xs == init + [last];
      RemoveElement(init, e) + (if last == e then [] else [last])
  }

  /** Removal drops exactly the copies of the element: the rest keep their counts. */
  lemma {:induction false} RemoveElementCounts(xs: seq<int>, e: int)
    ensures |RemoveElement(xs, e)| == |xs| - multiset(xs)[e]
    ensures multiset(RemoveElement(xs, e)) == multiset(xs)[e := 0]
  {
    if xs != [] {
      var init, last := xs[..|xs| - 1], xs[|xs| - 1];
      assert xs == init + [last];
      RemoveElementCounts(init, e);
    }
  }

  /** Removal works element by element: it keeps the relative order of the rest. */
  lemma {:induction false} RemoveElementConcat(a: seq<int>, b: seq<int>, e: int)
    ensures RemoveElement(a + b, e) == RemoveElement(a, e) + RemoveElement(b, e)
  {
    if b == [] {
      assert a + b == a;
    } else {
      var init, last := b[..|b| - 1], b[|b| - 1];
      assert (a + b)[..|a + b| - 1] == a + init;
      assert (a + b)[|a + b| - 1] == last;
      RemoveElementConcat(a, init, e);
    }
  }

  /** A detach right after an attach gives the host its old manifest back,
      provided the rider was not already on it. */
  lemma {:induction false} RemoveAfterAdd(xs: seq<int>, e: int)
    requires e !in xs
    ensures RemoveElement(AddElement(xs, e), e) == xs
  {
    RemoveElementConcat(xs, [e], e);
    assert RemoveElement([e], e) == RemoveElement([], e) + [];
  }

  /** Re-adding before removing changes nothing: removal wipes every copy. */
  lemma {:induction false} RemoveAbsorbsAdd(xs: seq<int>, e: int)
    ensures RemoveElement(AddElement(xs, e), e) == RemoveElement(xs, e)
  {
    if e !in xs {
      RemoveAfterAdd(xs, e);
    }
  }

  /** Adding twice is adding once. */
  lemma AddElementIdempotent(xs: seq<int>, e: int)
    ensures AddElement(AddElement(xs, e), e) == AddElement(xs, e)
  {
  }

  /** Hologram.addElement over an int[]: a scan for the element, then a copy one longer. */
  method AddElementArray(a: array<int>, e: int) returns (r: array<int>)
    ensures r[..] == AddElement(a[..], e)
    ensures e in a[..] ==> r == a
  {
    for i := 0 to a.Length
      invariant e !in a[..i]
    {
      if a[i] == e {
        return a;
      }
    }
    assert a[..] == a[..a.Length];
    r := new int[a.Length + 1];
    for i := 0 to a.Length
      invariant r[..i] == a[..i]
    {
      r[i] := a[i];
    }
    r[a.Length] := e;
    assert r[..] == r[..a.Length] + [e];
  }

  /** The counting pass of Hologram.removeElement. */
  method CountOccurrences(a: array<int>, e: int) returns (count: nat)
    ensures count == multiset(a[..])[e]
  {
    count := 0;
    for i := 0 to a.Length
      invariant count == multiset(a[..i])[e]
    {
      assert a[..i + 1] == a[..i] + [a[i]];
      if a[i] == e {
        count := count + 1;
      }
    }
    assert a[..a.Length] == a[..];
  }

  /** Hologram.removeElement over an int[]: count the element, return the same
      array when it is absent, otherwise copy the others into a shorter array. */
  method RemoveElementArray(a: array<int>, e: int) returns (r: array<int>)
    ensures r[..] == RemoveElement(a[..], e)
    ensures e !in a[..] ==> r == a
  {
    var count := CountOccurrences(a, e);
    if count == 0 {
      return a;
    }
    RemoveElementCounts(a[..], e);
    r := CopyKept(a, e, a.Length - count);
  }

  /** The copying pass of Hologram.removeElement, into an array of the given length. */
  method CopyKept(a: array<int>, e: int, n: nat) returns (r: array<int>)
    requires n == |RemoveElement(a[..], e)|
    ensures fresh(r) && r[..] == RemoveElement(a[..], e)
  {
    r := new int[n];
    var j := 0;
    for i := 0 to a.Length
      invariant j == |RemoveElement(a[..i], e)| <= r.Length
      invariant forall k :: 0 <= k < j ==> r[k] == RemoveElement(a[..i], e)[k]
    {
      PrefixStep(a[..], i, e);
      if a[i] != e {
        r[j] := a[i];
        j := j + 1;
      }
    }
    assert a[..a.Length] == a[..];
  }

  /** One step of the copy: the kept prefix grows by the next element unless it
      is the removed one, and never outgrows the whole result. */
  lemma PrefixStep(xs: seq<int>, i: int, e: int)
    requires 0 <= i < |xs|
    ensures RemoveElement(xs[..i + 1], e)
      == RemoveElement(xs[..i], e) + (if xs[i] == e then [] else [xs[i]])
    ensures |RemoveElement(xs[..i + 1], e)| <= |RemoveElement(xs, e)|
  {
    assert xs[..i + 1][..i] == xs[..i];
    assert xs == xs[..i + 1] + xs[i + 1..];
    RemoveElementConcat(xs[..i + 1], xs[i + 1..], e);
  }
}
