/** Splitting a list by a condition, keeping the order, and erasing positions
    from the back. */
module Filters {
  import opened Basics

  function Select<T>(s: seq<T>, p: T -> bool): seq<T> {
    if s == [] then []
    else if p(s[|s| - 1]) then Select(s[..|s| - 1], p) + [s[|s| - 1]]
    else Select(s[..|s| - 1], p)
  }

  function Reject<T>(s: seq<T>, p: T -> bool): seq<T> {
    if s == [] then []
    else if p(s[|s| - 1]) then Reject(s[..|s| - 1], p)
    else Reject(s[..|s| - 1], p) + [s[|s| - 1]]
  }

  /** Every element ends up on exactly the side where it belongs, as often as it
      was there. */
  lemma {:induction false} Partition<T>(s: seq<T>, p: T -> bool, x: T)
    ensures multiset(Select(s, p))[x] == if p(x) then multiset(s)[x] else 0
    ensures multiset(Reject(s, p))[x] == if p(x) then 0 else multiset(s)[x]
  {
    if s != [] {
      var k := |s| - 1;
      Partition(s[..k], p, x);
      assert s == s[..k] + [s[k]];
    }
  }

  lemma SelectIn<T>(s: seq<T>, p: T -> bool, x: T)
    ensures x in Select(s, p) <==> x in s && p(x)
    ensures x in Reject(s, p) <==> x in s && !p(x)
  {
    Partition(s, p, x);
    assert x in Select(s, p) <==> multiset(Select(s, p))[x] > 0;
    assert x in Reject(s, p) <==> multiset(Reject(s, p))[x] > 0;
    assert x in s <==> multiset(s)[x] > 0;
  }

  lemma SelectSnoc<T>(s: seq<T>, x: T, p: T -> bool)
    ensures Select(s + [x], p) == if p(x) then Select(s, p) + [x] else Select(s, p)
  {
    assert (s + [x])[..|s|] == s;
  }

  /** Selecting in two steps, when the second condition implies the first. */
  lemma {:induction false} SelectSelect<T>(s: seq<T>, p: T -> bool, q: T -> bool)
    requires forall x: T :: q(x) ==> p(x)
    ensures Select(Select(s, p), q) == Select(s, q)
  {
    if s != [] {
      var k := |s| - 1;
      SelectSelect(s[..k], p, q);
      if p(s[k]) {
        SelectSnoc(Select(s[..k], p), s[k], q);
      } else {
        assert Select(s, p) == Select(s[..k], p);
      }
    }
  }

  // ------------------------------------------------- positions

  predicate Increasing(p: seq<nat>) {
    forall i, j :: 0 <= i < j < |p| ==> p[i] < p[j]
  }

  predicate Below(p: seq<nat>, n: nat) {
    forall i :: 0 <= i < |p| ==> p[i] < n
  }

  function At<T>(s: seq<T>, p: seq<nat>): seq<T>
    requires Below(p, |s|)
  {
    seq(|p|, i requires 0 <= i < |p| => s[p[i]])
  }

  /** The positions where the condition holds. */
  function Positions<T>(s: seq<T>, p: T -> bool): (r: seq<nat>)
    ensures Increasing(r) && Below(r, |s|)
  {
    if s == [] then []
    else if p(s[|s| - 1]) then Positions(s[..|s| - 1], p) + [|s| - 1]
    else Positions(s[..|s| - 1], p)
  }

  lemma {:induction false} AtPositions<T>(s: seq<T>, p: T -> bool)
    ensures At(s, Positions(s, p)) == Select(s, p)
  {
    if s != [] {
      var k := |s| - 1;
      AtPositions(s[..k], p);
      assert At(s, Positions(s[..k], p)) == At(s[..k], Positions(s[..k], p));
    }
  }

  /** Erasing positions from the last to the first. */
  function EraseBackwards<T>(s: seq<T>, p: seq<nat>): seq<T>
    requires Increasing(p) && Below(p, |s|)
    decreases |p|
  {
    if p == [] then s
    else EraseBackwards(RemoveAt(s, p[|p| - 1]), p[..|p| - 1])
  }

  /** Erasing at the front does not disturb the last element. */
  lemma {:induction false} EraseBackwardsTail<T>(s: seq<T>, x: T, p: seq<nat>)
    requires Increasing(p) && Below(p, |s|)
    ensures EraseBackwards(s + [x], p) == EraseBackwards(s, p) + [x]
    decreases |p|
  {
    if p != [] {
      var k := |p| - 1;
      assert RemoveAt(s + [x], p[k]) == RemoveAt(s, p[k]) + [x];
      EraseBackwardsTail(RemoveAt(s, p[k]), x, p[..k]);
    }
  }

  lemma EraseBackwardsLast<T>(s: seq<T>, x: T, p: seq<nat>)
    requires Increasing(p) && Below(p, |s|)
    ensures EraseBackwards(s + [x], p + [|s|]) == EraseBackwards(s, p)
  {
    assert (p + [|s|])[..|p|] == p;
    assert RemoveAt(s + [x], |s|) == s;
  }

  /** Erasing the positions where the condition holds leaves the rest. */
  lemma {:induction false} EraseRejects<T>(s: seq<T>, p: T -> bool)
    ensures EraseBackwards(s, Positions(s, p)) == Reject(s, p)
  {
    if s != [] {
      var k := |s| - 1;
      var front := Positions(s[..k], p);
      EraseRejects(s[..k], p);
      assert s[..k] + [s[k]] == s;
      if p(s[k]) {
        EraseBackwardsLast(s[..k], s[k], front);
      } else {
        assert Positions(s, p) == front;
        EraseBackwardsTail(s[..k], s[k], front);
      }
    }
  }
}
