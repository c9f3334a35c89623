/**
 * Finite sets of names walked in ascending order, the order in which the
 * well-formedness rules visit the functions of a program and the blocks of a
 * function (both are kept in ordered maps).
 */
module NatSets {

  /** Every finite non-empty set of naturals has a least element. */
  lemma {:induction false} HasMinimum(s: set<nat>)
    requires s != {}
    ensures exists m :: m in s && forall y :: y in s ==> m <= y
  {
    var x :| x in s;
    var rest := s - {x};
    var least := x;
    if rest != {} {
      HasMinimum(rest);
      var m :| m in rest && forall y :: y in rest ==> m <= y;
      least := if x < m then x else m;
    }
    forall y | y in s
      ensures least <= y
    {
      if y != x {
        assert y in rest;
      }
    }
    assert least in s;
  }

  function MinElement(s: set<nat>): (m: nat)
    requires s != {}
    ensures m in s && forall y :: y in s ==> m <= y
  {
    HasMinimum(s);
    var m :| m in s && forall y :: y in s ==> m <= y;
    m
  }

  predicate StrictlyIncreasing(xs: seq<nat>) {
    forall i, j :: 0 <= i < j < |xs| ==> xs[i] < xs[j]
  }

  /** The elements of `s` in ascending order, each once. */
  function SortedElements(s: set<nat>): (xs: seq<nat>)
    ensures StrictlyIncreasing(xs)
    ensures forall x :: x in xs <==> x in s
    ensures |xs| == |s|
    decreases |s|
  {
    if s == {} then []
    else
      var m := MinElement(s);
      var rest := SortedElements(s - {m});
      assert forall i :: 0 <= i < |rest| ==> m < rest[i] by {
        forall i | 0 <= i < |rest| ensures m < rest[i] {
          assert rest[i] in s - {m};
        }
      }
      [m] + rest
  }

  /** In a strictly increasing sequence, a smaller element sits at an earlier position. */
  lemma SmallerComesFirst(xs: seq<nat>, j: nat, k: nat)
    requires StrictlyIncreasing(xs)
    requires j < |xs| && k < |xs| && xs[j] < xs[k]
    ensures j < k
  {
  }
}
