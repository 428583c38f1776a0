/**
 * Insertion into a JavaScript `Set` (or the key list of a plain object whose values are
 * never read): a value already present is ignored, a new one goes to the end, so the
 * contents enumerate once each, in the order they were first seen.
 */
module FirstSeen {

  /** The elements are pairwise different. */
  ghost predicate Distinct<T>(s: seq<T>)
  {
    forall i, j :: 0 <= i < j < |s| ==> s[i] != s[j]
  }

  /** `seen` after adding every element of `xs`, in order. */
  function AddNew<T(==)>(seen: seq<T>, xs: seq<T>): seq<T>
  {
    if |xs| == 0 then seen
    else
      var r := AddNew(seen, xs[..|xs| - 1]);
      var x := xs[|xs| - 1];
      if x in r then r else r + [x]
  }

  /** The contents of a set filled from `xs`. */
  function Dedup<T(==)>(xs: seq<T>): seq<T>
  {
    AddNew([], xs)
  }

  /** The position of the first occurrence of `x`. */
  function FirstIndex<T(==)>(xs: seq<T>, x: T): (i: nat)
    requires x in xs
    ensures i < |xs| && xs[i] == x && x !in xs[..i]
  {
    if xs[0] == x then 0
    else
      var i := 1 + FirstIndex(xs[1..], x);
      assert xs[..i] == [xs[0]] + xs[1..][..i - 1];
      i
  }

  /** Adding never removes or moves what was there, and adds at most one element per input element. */
  lemma {:induction false} AddNewExtends<T>(seen: seq<T>, xs: seq<T>)
    ensures seen <= AddNew(seen, xs)
    ensures |AddNew(seen, xs)| <= |seen| + |xs|
  {
    if |xs| > 0 {
      AddNewExtends(seen, xs[..|xs| - 1]);
    }
  }

  /** The result holds exactly the elements that were there or were added. */
  lemma {:induction false} AddNewMembers<T>(seen: seq<T>, xs: seq<T>)
    ensures forall x :: x in AddNew(seen, xs) <==> x in seen || x in xs
  {
    if |xs| > 0 {
      var front := xs[..|xs| - 1];
      AddNewMembers(seen, front);
      assert xs == front + [xs[|xs| - 1]];
    }
  }

  /** Starting from distinct elements, the result has no duplicates. */
  lemma {:induction false} AddNewDistinct<T>(seen: seq<T>, xs: seq<T>)
    requires Distinct(seen)
    ensures Distinct(AddNew(seen, xs))
  {
    if |xs| > 0 {
      AddNewDistinct(seen, xs[..|xs| - 1]);
    }
  }

  /** Adding only elements that are already there changes nothing. */
  lemma {:induction false} AddNewPresent<T>(seen: seq<T>, xs: seq<T>)
    requires forall x :: x in xs ==> x in seen
    ensures AddNew(seen, xs) == seen
  {
    if |xs| > 0 {
      var front := xs[..|xs| - 1];
      assert forall x :: x in front ==> x in xs;
      AddNewPresent(seen, front);
    }
  }

  /** Adding `xs` and then `ys` is adding `xs + ys`. */
  lemma {:induction false} AddNewAppend<T>(seen: seq<T>, xs: seq<T>, ys: seq<T>)
    ensures AddNew(seen, xs + ys) == AddNew(AddNew(seen, xs), ys)
    decreases |ys|
  {
    if |ys| == 0 {
      assert xs + ys == xs;
    } else {
      var zs := xs + ys;
      assert zs[..|zs| - 1] == xs + ys[..|ys| - 1];
      assert zs[|zs| - 1] == ys[|ys| - 1];
      AddNewAppend(seen, xs, ys[..|ys| - 1]);
    }
  }

  /** Adding the same elements a second time changes nothing. */
  lemma AddNewIdempotent<T>(seen: seq<T>, xs: seq<T>)
    ensures AddNew(AddNew(seen, xs), xs) == AddNew(seen, xs)
  {
    AddNewMembers(seen, xs);
    AddNewPresent(AddNew(seen, xs), xs);
  }

  /**
   * The added elements follow the order of their first occurrence in `xs`: of two added
   * elements, the one placed earlier occurs first earlier.
   */
  lemma {:induction false} AddNewFirstSeenOrder<T>(seen: seq<T>, xs: seq<T>)
    ensures forall i, j :: |seen| <= i < j < |AddNew(seen, xs)| ==>
      && AddNew(seen, xs)[i] in xs && AddNew(seen, xs)[j] in xs
      && FirstIndex(xs, AddNew(seen, xs)[i]) < FirstIndex(xs, AddNew(seen, xs)[j])
  {
    if |xs| > 0 {
      var r := AddNew(seen, xs);
      var front := xs[..|xs| - 1];
      var x := xs[|xs| - 1];
      var rf := AddNew(seen, front);
      AddNewFirstSeenOrder(seen, front);
      AddNewExtends(seen, front);
      forall i | |seen| <= i < |rf|
        ensures rf[i] in front && rf[i] in xs && FirstIndex(xs, rf[i]) == FirstIndex(front, rf[i])
      {
        AddNewDistinctTail(seen, front, i);
        FirstIndexPrefix(front, x, rf[i]);
      }
      if x in rf {
        assert r == rf;
        forall i, j | |seen| <= i < j < |r|
          ensures r[i] in xs && r[j] in xs && FirstIndex(xs, r[i]) < FirstIndex(xs, r[j])
        {
        }
      } else {
        assert r == rf + [x];
        assert FirstIndex(xs, x) == |xs| - 1 by {
          assert xs[..|xs| - 1] == front;
          AddNewMembers(seen, front);
          FirstIndexUnique(xs, x, |xs| - 1);
        }
        forall i, j | |seen| <= i < j < |r|
          ensures r[i] in xs && r[j] in xs && FirstIndex(xs, r[i]) < FirstIndex(xs, r[j])
        {
          assert r[i] == rf[i];
          if j < |rf| {
            assert r[j] == rf[j];
          } else {
            assert r[j] == x;
          }
        }
      }
    } else {
      assert AddNew(seen, xs) == seen;
    }
  }

  /** An element placed past the `seen` prefix came from `xs`. */
  lemma {:induction false} AddNewDistinctTail<T>(seen: seq<T>, xs: seq<T>, i: nat)
    requires |seen| <= i < |AddNew(seen, xs)|
    ensures AddNew(seen, xs)[i] in xs
  {
    AddNewExtends(seen, xs);
    if |xs| > 0 {
      var front := xs[..|xs| - 1];
      var rf := AddNew(seen, front);
      if i < |rf| {
        AddNewDistinctTail(seen, front, i);
        assert front[FirstIndex(front, rf[i])] in xs;
      }
    }
  }

  /** Appending an element does not move the first occurrence of an element already present. */
  lemma FirstIndexPrefix<T>(front: seq<T>, x: T, y: T)
    requires y in front
    ensures y in front + [x] && FirstIndex(front + [x], y) == FirstIndex(front, y)
  {
    var xs := front + [x];
    var i := FirstIndex(front, y);
    assert xs[..i] == front[..i];
    FirstIndexUnique(xs, y, i);
  }

  /** A position holding `y` with no earlier `y` is the first occurrence. */
  lemma {:induction false} FirstIndexUnique<T>(xs: seq<T>, y: T, j: nat)
    requires j < |xs| && xs[j] == y && y !in xs[..j]
    ensures y in xs && FirstIndex(xs, y) == j
  {
    if j > 0 {
      assert xs[0] == xs[..j][0];
      assert xs[1..][..j - 1] == xs[..j][1..];
      FirstIndexUnique(xs[1..], y, j - 1);
    }
  }
}
