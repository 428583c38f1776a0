/**
 * Numeric samples kept per process: the bounded newest-first history, JavaScript's
 * `reduce`-sum and `Math.round` of a quotient, the order in which an object keyed by
 * pids enumerates, and the per-pid reductions both generations of `App` compute.
 */
module Samples {

  /** `values.reduce((sum, value) => sum + value)`; the source never calls it on an empty array without failing. */
  function Sum(s: seq<nat>): nat
  {
    if s == [] then 0 else s[0] + Sum(s[1..])
  }

  lemma {:induction false} SumAppend(a: seq<nat>, b: seq<nat>)
    ensures Sum(a + b) == Sum(a) + Sum(b)
  {
    if a == [] {
      assert a + b == b;
    } else {
      assert (a + b)[0] == a[0];
      assert (a + b)[1..] == a[1..] + b;
      SumAppend(a[1..], b);
    }
  }

  lemma {:induction false} SumBounds(s: seq<nat>, lo: nat, hi: nat)
    requires forall i :: 0 <= i < |s| ==> lo <= s[i] <= hi
    ensures |s| * lo <= Sum(s) <= |s| * hi
  {
    if s != [] {
      var t := s[1..];
      SumBounds(t, lo, hi);
      assert |s| * lo == |t| * lo + lo && |s| * hi == |t| * hi + hi by {
        assert |s| == |t| + 1;
      }
    }
  }

  /** `Math.round(a / b)` for a positive `b`: the integer nearest to a / b, a half rounded up. */
  function RoundDiv(a: int, b: int): (r: int)
    requires b > 0
    ensures 2 * b * r - b <= 2 * a < 2 * b * r + b
  {
    (2 * a + b) / (2 * b)
  }

  /** `Math.round(values.reduce(sum) / values.length)` on a non-empty array. */
  function RoundedMean(s: seq<nat>): (r: nat)
    requires |s| > 0
  {
    var q := RoundDiv(Sum(s), |s|);
    assert 0 <= q by { MeanNotNegative(Sum(s), |s|, q); }
    q
  }

  lemma MeanNotNegative(sum: nat, n: int, q: int)
    requires n > 0 && q == RoundDiv(sum, n)
    ensures q >= 0
  {
    assert 2 * sum + n >= 0 && 2 * n > 0;
  }

  lemma MulMono(n: int, a: int, b: int)
    requires n >= 0 && a <= b
    ensures n * a <= n * b
  {
    assert n * b - n * a == n * (b - a);
  }

  /** The rounded mean of samples that all lie between `lo` and `hi` lies between them too. */
  lemma RoundedMeanBounds(s: seq<nat>, lo: nat, hi: nat)
    requires |s| > 0
    requires forall i :: 0 <= i < |s| ==> lo <= s[i] <= hi
    ensures lo <= RoundedMean(s) <= hi
  {
    var n, r := |s|, RoundedMean(s);
    SumBounds(s, lo, hi);
    NearestBetween(Sum(s), n, r, lo, hi);
  }

  /** The integer nearest to sum / n lies between lo and hi when sum lies between n * lo and n * hi. */
  lemma NearestBetween(sum: int, n: int, r: int, lo: int, hi: int)
    requires n > 0 && n * lo <= sum <= n * hi
    requires 2 * n * r - n <= 2 * sum < 2 * n * r + n
    ensures lo <= r <= hi
  {
    if r > hi {
      MulMono(n, hi + 1, r);
      assert false;
    }
    if r < lo {
      MulMono(n, r, lo - 1);
      assert false;
    }
  }

  /**
   * `[x, ...h].slice(0, cap)`: the new sample first, then the older ones in order, and at
   * most `cap` samples kept.
   */
  function Push(h: seq<nat>, x: nat, cap: nat): (r: seq<nat>)
    requires cap > 0
    ensures |r| == if |h| < cap then |h| + 1 else cap
    ensures r[0] == x
    ensures forall i :: 1 <= i < |r| ==> r[i] == h[i - 1]
  {
    ([x] + h)[..if |h| + 1 < cap then |h| + 1 else cap]
  }

  /** The history after pushing every sample of `xs`, the oldest (`xs[0]`) first. */
  function PushAll(h: seq<nat>, xs: seq<nat>, cap: nat): seq<nat>
    requires cap > 0
    decreases |xs|
  {
    if xs == [] then h else PushAll(Push(h, xs[0], cap), xs[1..], cap)
  }

  function Reverse(s: seq<nat>): (r: seq<nat>)
    ensures |r| == |s|
    ensures forall i :: 0 <= i < |s| ==> r[i] == s[|s| - 1 - i]
  {
    if s == [] then [] else Reverse(s[1..]) + [s[0]]
  }

  function Min(a: int, b: int): int
  {
    if a < b then a else b
  }

  /**
   * A history that never exceeded its capacity holds, after any run of pushes, the
   * newest samples first, then what it held before, cut to the capacity.
   */
  lemma {:induction false} PushAllWindow(h: seq<nat>, xs: seq<nat>, cap: nat)
    requires cap > 0 && |h| <= cap
    ensures PushAll(h, xs, cap) == (Reverse(xs) + h)[..Min(cap, |xs| + |h|)]
    decreases |xs|
  {
    if xs != [] {
      var x, rest := xs[0], xs[1..];
      var h' := Push(h, x, cap);
      PushAllWindow(h', rest, cap);
      var lhs := (Reverse(rest) + h')[..Min(cap, |rest| + |h'|)];
      var rhs := (Reverse(xs) + h)[..Min(cap, |xs| + |h|)];
      assert |lhs| == |rhs|;
      forall i | 0 <= i < |lhs|
        ensures lhs[i] == rhs[i]
      {
        if i < |rest| {
          assert lhs[i] == Reverse(rest)[i] == rest[|rest| - 1 - i] == xs[|xs| - 1 - i];
        } else if i == |rest| {
          assert lhs[i] == h'[0] == x;
        } else {
          assert lhs[i] == h'[i - |rest|] == h[i - |rest| - 1];
        }
      }
    }
  }

  /**
   * Once at least `cap` samples were pushed, the history is exactly the newest `cap`
   * of them, newest first: nothing older, and nothing from before the run, remains.
   */
  lemma NewestSamplesOnly(h: seq<nat>, xs: seq<nat>, cap: nat)
    requires cap > 0 && |h| <= cap && |xs| >= cap
    ensures PushAll(h, xs, cap) == Reverse(xs[|xs| - cap..])
  {
    PushAllWindow(h, xs, cap);
    var r := PushAll(h, xs, cap);
    var w := xs[|xs| - cap..];
    forall i | 0 <= i < cap
      ensures r[i] == Reverse(w)[i]
    {
      assert r[i] == Reverse(xs)[i] == xs[|xs| - 1 - i];
    }
  }

  /**
   * The order in which a JavaScript object keyed by array indices (pids) enumerates them:
   * every key once; `AscendingKeysSorted` shows the order is ascending.
   */
  function AscendingKeys(s: set<nat>): (r: seq<nat>)
    ensures |r| == |s|
    ensures forall k :: k in s <==> k in r
    ensures forall i :: 0 <= i < |r| ==> r[i] in s
    decreases |s|
  {
    if s == {} then []
    else
      var m := Least(s);
      var rest := AscendingKeys(s - {m});
      AscendingCons(s, m, rest);
      [m] + rest
  }

  /** Putting the least element in front of the keys of the rest gives all of `s`. */
  lemma AscendingCons(s: set<nat>, m: nat, rest: seq<nat>)
    requires m in s
    requires |rest| == |s - {m}|
    requires forall k :: k in s - {m} <==> k in rest
    ensures |[m] + rest| == |s|
    ensures forall k :: k in s <==> k in [m] + rest
    ensures forall i :: 0 <= i < |[m] + rest| ==> ([m] + rest)[i] in s
  {
    var r := [m] + rest;
    forall i | 0 <= i < |r|
      ensures r[i] in s
    {
      if i > 0 {
        assert r[i] == rest[i - 1] && rest[i - 1] in rest;
      }
    }
  }

  /** The keys are listed strictly ascending, so each once. */
  lemma {:induction false} AscendingKeysSorted(s: set<nat>)
    ensures forall i, j :: 0 <= i < j < |AscendingKeys(s)| ==> AscendingKeys(s)[i] < AscendingKeys(s)[j]
    decreases |s|
  {
    if s != {} {
      var m := Least(s);
      var rest := AscendingKeys(s - {m});
      AscendingKeysSorted(s - {m});
      var r := AscendingKeys(s);
      assert r == [m] + rest;
      forall i, j | 0 <= i < j < |r|
        ensures r[i] < r[j]
      {
        assert r[j] == rest[j - 1] && rest[j - 1] in s - {m};
        if i > 0 {
          assert r[i] == rest[i - 1];
        }
      }
    }
  }

  /** The smallest element of a non-empty set. */
  function Least(s: set<nat>): (m: nat)
    requires s != {}
    ensures m in s && forall k :: k in s ==> m <= k
  {
    var x :| x in s;
    LeastBelow(s, x);
    var m :| m in s && forall k :: k in s ==> m <= k;
    m
  }

  /** Descending from any element of `s` reaches a smallest one. */
  lemma {:induction false} LeastBelow(s: set<nat>, x: nat)
    requires x in s
    ensures exists m :: m in s && forall k :: k in s ==> m <= k
    decreases x
  {
    if exists y :: y in s && y < x {
      var y :| y in s && y < x;
      LeastBelow(s, y);
    } else {
      assert forall k :: k in s ==> x <= k;
    }
  }

  /** Every history of the table holds at least one sample. */
  ghost predicate NonEmptyHistories(h: map<nat, seq<nat>>)
  {
    forall k :: k in h ==> |h[k]| > 0
  }

  /** `history[0] || 0`: the newest sample, or 0 when there is none. */
  function HeadOrZero(s: seq<nat>): nat
  {
    if |s| > 0 then s[0] else 0
  }

  /** One rounded mean per pid, in enumeration order. */
  function MeansInKeyOrder(h: map<nat, seq<nat>>): seq<nat>
    requires NonEmptyHistories(h)
  {
    var ks := AscendingKeys(h.Keys);
    seq(|ks|, i requires 0 <= i < |ks| => RoundedMean(h[ks[i]]))
  }

  /** The newest sample of every pid (0 when absent), in enumeration order. */
  function HeadsInKeyOrder(h: map<nat, seq<nat>>): seq<nat>
  {
    var ks := AscendingKeys(h.Keys);
    seq(|ks|, i requires 0 <= i < |ks| => HeadOrZero(h[ks[i]]))
  }

  /** The values kept by `if (value) values.push(value)`. */
  function NonZero(s: seq<nat>): (r: seq<nat>)
    ensures forall i :: 0 <= i < |r| ==> r[i] != 0
    ensures |r| <= |s|
  {
    if s == [] then [] else (if s[0] != 0 then [s[0]] else []) + NonZero(s[1..])
  }

  /** Dropping zeros does not change a sum. */
  lemma {:induction false} SumNonZero(s: seq<nat>)
    ensures Sum(NonZero(s)) == Sum(s)
  {
    if s != [] {
      SumNonZero(s[1..]);
      SumAppend(if s[0] != 0 then [s[0]] else [], NonZero(s[1..]));
    }
  }

  /** Nothing is kept exactly when every value is zero. */
  lemma {:induction false} NonZeroEmpty(s: seq<nat>)
    ensures NonZero(s) == [] <==> forall i :: 0 <= i < |s| ==> s[i] == 0
  {
    if s != [] {
      NonZeroEmpty(s[1..]);
      if s[0] == 0 {
        assert forall i :: 1 <= i < |s| ==> s[i] == s[1..][i - 1];
      }
    }
  }

  /** The non-zero newest samples, in enumeration order: what the total-memory reduction adds up. */
  function NonZeroHeads(h: map<nat, seq<nat>>): seq<nat>
  {
    NonZero(HeadsInKeyOrder(h))
  }

  /** The total of the newest samples, defined only when one of them is non-zero. */
  function TotalOfHeads(h: map<nat, seq<nat>>): nat
    requires NonZeroHeads(h) != []
  {
    Sum(NonZeroHeads(h))
  }

  /** The rounded mean of the per-pid rounded means, defined only for a non-empty table. */
  function MeanOfMeans(h: map<nat, seq<nat>>): nat
    requires |h| > 0 && NonEmptyHistories(h)
  {
    RoundedMean(MeansInKeyOrder(h))
  }

  /** The total is the sum of every pid's newest sample: a pid whose newest sample is 0 adds nothing. */
  lemma TotalIsSumOfHeads(h: map<nat, seq<nat>>)
    requires NonZeroHeads(h) != []
    ensures TotalOfHeads(h) == Sum(HeadsInKeyOrder(h))
  {
    SumNonZero(HeadsInKeyOrder(h));
  }

  /** The total is undefined (the reduction throws) exactly when every pid's newest sample is 0 or absent. */
  lemma NoTotalIffAllHeadsZero(h: map<nat, seq<nat>>)
    ensures NonZeroHeads(h) == [] <==> forall k :: k in h ==> HeadOrZero(h[k]) == 0
  {
    var hs := HeadsInKeyOrder(h);
    var ks := AscendingKeys(h.Keys);
    NonZeroEmpty(hs);
    if NonZeroHeads(h) == [] {
      forall k | k in h
        ensures HeadOrZero(h[k]) == 0
      {
        var i :| 0 <= i < |ks| && ks[i] == k;
        assert hs[i] == HeadOrZero(h[k]);
      }
    }
  }

  /** When every sample of every history lies between `lo` and `hi`, so does the mean of means. */
  lemma MeanOfMeansBounds(h: map<nat, seq<nat>>, lo: nat, hi: nat)
    requires |h| > 0 && NonEmptyHistories(h)
    requires forall k, i :: k in h && 0 <= i < |h[k]| ==> lo <= h[k][i] <= hi
    ensures lo <= MeanOfMeans(h) <= hi
  {
    var ms := MeansInKeyOrder(h);
    var ks := AscendingKeys(h.Keys);
    forall i | 0 <= i < |ms|
      ensures lo <= ms[i] <= hi
    {
      RoundedMeanBounds(h[ks[i]], lo, hi);
    }
    RoundedMeanBounds(ms, lo, hi);
  }
}
