/** Finite sets: elements of a list, sizes, and ascending lists of their elements. */
module Ordering {

  ghost function Elements<T>(xs: seq<T>): set<T> {
    set x | x in xs
  }

  lemma SubsetSize<T>(s: set<T>, t: set<T>)
    requires s <= t
    ensures |s| <= |t|
  {
    assert t == s + (t - s);
  }

  ghost predicate Ordered(xs: seq<nat>) {
    forall i, j :: 0 <= i < j < |xs| ==> xs[i] < xs[j]
  }

  lemma ElementsPush<T>(xs: seq<T>, x: T)
    ensures Elements(xs + [x]) == Elements(xs) + {x}
  {
  }

  /** ORDER BY in decimal order, which is numeric order. */
  method Sorted(heights: set<nat>) returns (xs: seq<nat>)
    ensures Ordered(xs) && forall h :: h in xs <==> h in heights
  {
    xs := [];
    var rest := heights;
    while rest != {}
      invariant rest <= heights && Ordered(xs)
      invariant forall h :: h in xs <==> h in heights && h !in rest
      invariant forall h, i :: h in rest && 0 <= i < |xs| ==> xs[i] < h
      decreases |rest|
    {
      var least := Least(rest);
      xs := xs + [least];
      rest := rest - {least};
    }
  }

  method Least(heights: set<nat>) returns (least: nat)
    requires heights != {}
    ensures least in heights && forall h :: h in heights ==> least <= h
  {
    least :| least in heights;
    var rest := heights - {least};
    while rest != {}
      invariant rest <= heights && least in heights
      invariant forall h :: h in heights && h !in rest ==> least <= h
      decreases |rest|
    {
      var h: nat :| h in rest;
      if h < least {
        least := h;
      }
      rest := rest - {h};
    }
  }
}
