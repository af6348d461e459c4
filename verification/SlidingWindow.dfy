/** Counting the members of a time-ordered history that fall in a window. */
module SlidingWindow {

  /** The members of the first n of `h` later than `cutoff`, in order. */
  function AfterN(h: seq<int>, n: nat, cutoff: int): (r: seq<int>)
    requires n <= |h|
    ensures |r| <= n
  {
    if n == 0 then []
    else if h[n - 1] > cutoff then AfterN(h, n - 1, cutoff) + [h[n - 1]]
    else AfterN(h, n - 1, cutoff)
  }

  function After(h: seq<int>, cutoff: int): (r: seq<int>)
    ensures |r| <= |h|
  {
    AfterN(h, |h|, cutoff)
  }

  /** How many of the first n members of `h` lie in the half-open interval (lo, hi]. */
  function CountN(h: seq<int>, n: nat, lo: int, hi: int): nat
    requires n <= |h|
  {
    if n == 0 then 0
    else CountN(h, n - 1, lo, hi) + (if lo < h[n - 1] <= hi then 1 else 0)
  }

  function Count(h: seq<int>, lo: int, hi: int): nat {
    CountN(h, |h|, lo, hi)
  }

  /** How many members of `h` lie in the window that ends at t. */
  function Recent(h: seq<int>, window: nat, t: int): nat {
    Count(h, t - window, t)
  }

  /** At most `bound` members in every window of the given width. */
  ghost predicate Bounded(h: seq<int>, window: nat, bound: nat) {
    forall t :: Recent(h, window, t) <= bound
  }

  predicate Sorted(h: seq<int>) {
    forall i, j :: 0 <= i < j < |h| ==> h[i] <= h[j]
  }

  predicate UpTo(h: seq<int>, t: int) {
    forall i :: 0 <= i < |h| ==> h[i] <= t
  }

  /* ------------------------------------------------------------- appending */

  lemma {:induction false} AfterPrefix(h: seq<int>, t: int, n: nat, cutoff: int)
    requires n <= |h|
    ensures AfterN(h + [t], n, cutoff) == AfterN(h, n, cutoff)
  {
    if n > 0 {
      AfterPrefix(h, t, n - 1, cutoff);
    }
  }

  lemma {:induction false} CountPrefix(h: seq<int>, t: int, n: nat, lo: int, hi: int)
    requires n <= |h|
    ensures CountN(h + [t], n, lo, hi) == CountN(h, n, lo, hi)
  {
    if n > 0 {
      CountPrefix(h, t, n - 1, lo, hi);
    }
  }

  lemma {:induction false} AfterSnoc(h: seq<int>, t: int, cutoff: int)
    ensures After(h + [t], cutoff) == if t > cutoff then After(h, cutoff) + [t] else After(h, cutoff)
  {
    AfterPrefix(h, t, |h|, cutoff);
  }

  lemma {:induction false} CountSnoc(h: seq<int>, t: int, lo: int, hi: int)
    ensures Count(h + [t], lo, hi) == Count(h, lo, hi) + (if lo < t <= hi then 1 else 0)
  {
    CountPrefix(h, t, |h|, lo, hi);
  }

  /* --------------------------------------------------------------- pruning */

  lemma {:induction false} AfterLast(h: seq<int>, n: nat, cutoff: int)
    requires 0 < n <= |h|
    ensures AfterN(h, n, cutoff) ==
            if h[n - 1] > cutoff then AfterN(h, n - 1, cutoff) + [h[n - 1]] else AfterN(h, n - 1, cutoff)
  {
  }

  lemma {:induction false} AfterNone(h: seq<int>, cutoff: int)
    ensures AfterN(h, 0, cutoff) == [] && After([], cutoff) == []
  {
  }

  lemma {:induction false} AfterAfterN(h: seq<int>, n: nat, c1: int, c2: int)
    requires c1 <= c2 && n <= |h|
    ensures After(AfterN(h, n, c1), c2) == AfterN(h, n, c2)
  {
    hide After, AfterN;
    if n == 0 {
      AfterNone(h, c1);
      AfterNone(h, c2);
    } else {
      AfterAfterN(h, n - 1, c1, c2);
      AfterLast(h, n, c1);
      AfterLast(h, n, c2);
      AfterSnoc(AfterN(h, n - 1, c1), h[n - 1], c2);
    }
  }

  /** Pruning twice is pruning once, at the later cutoff. */
  lemma {:induction false} AfterAfter(h: seq<int>, c1: int, c2: int)
    requires c1 <= c2
    ensures After(After(h, c1), c2) == After(h, c2)
  {
    AfterAfterN(h, |h|, c1, c2);
  }

  lemma {:induction false} AfterIsCountN(h: seq<int>, n: nat, cutoff: int, hi: int)
    requires UpTo(h, hi) && n <= |h|
    ensures |AfterN(h, n, cutoff)| == CountN(h, n, cutoff, hi)
  {
    if n > 0 {
      AfterIsCountN(h, n - 1, cutoff, hi);
    }
  }

  lemma {:induction false} AfterIsCount(h: seq<int>, cutoff: int, hi: int)
    requires UpTo(h, hi)
    ensures |After(h, cutoff)| == Count(h, cutoff, hi)
  {
    AfterIsCountN(h, |h|, cutoff, hi);
  }

  lemma {:induction false} AfterSortedN(h: seq<int>, n: nat, cutoff: int, hi: int)
    requires Sorted(h) && n <= |h| && (forall i :: 0 <= i < n ==> h[i] <= hi)
    ensures Sorted(AfterN(h, n, cutoff)) && UpTo(AfterN(h, n, cutoff), hi)
    ensures forall i :: 0 <= i < |AfterN(h, n, cutoff)| ==> AfterN(h, n, cutoff)[i] > cutoff
  {
    if n > 0 {
      AfterSortedN(h, n - 1, cutoff, h[n - 1]);
    }
  }

  /** What pruning keeps is late, in order, and no later than the latest. */
  lemma {:induction false} AfterSorted(h: seq<int>, cutoff: int, hi: int)
    requires Sorted(h) && UpTo(h, hi)
    ensures Sorted(After(h, cutoff)) && UpTo(After(h, cutoff), hi)
    ensures forall i :: 0 <= i < |After(h, cutoff)| ==> After(h, cutoff)[i] > cutoff
  {
    AfterSortedN(h, |h|, cutoff, hi);
  }

  lemma {:induction false} AfterSuffixN(h: seq<int>, n: nat, cutoff: int)
    requires n <= |h| && (forall i :: 0 <= i < n ==> cutoff < h[i])
    ensures AfterN(h, n, cutoff) == h[..n]
  {
    if n > 0 {
      AfterSuffixN(h, n - 1, cutoff);
      assert h[..n] == h[..n - 1] + [h[n - 1]];
    }
  }

  /** Nothing is pruned when the oldest member is late enough. */
  lemma {:induction false} AfterSuffix(h: seq<int>, cutoff: int)
    requires Sorted(h) && h != [] && cutoff < h[0]
    ensures After(h, cutoff) == h
  {
    AfterSuffixN(h, |h|, cutoff);
    assert h[..|h|] == h;
  }

  lemma {:induction false} FewerAfterOldestN(h: seq<int>, n: nat)
    requires 0 < n <= |h|
    ensures |AfterN(h, n, h[0])| < n
  {
    if n > 1 {
      FewerAfterOldestN(h, n - 1);
    }
  }

  /* -------------------------------------------------------------- counting */

  lemma {:induction false} CountShrinksN(h: seq<int>, n: nat, lo: int, hi: int, lo': int, hi': int)
    requires n <= |h| && lo <= lo' && hi' <= hi
    ensures CountN(h, n, lo', hi') <= CountN(h, n, lo, hi)
  {
    if n > 0 {
      CountShrinksN(h, n - 1, lo, hi, lo', hi');
    }
  }

  lemma {:induction false} CountShrinks(h: seq<int>, lo: int, hi: int, lo': int, hi': int)
    requires lo <= lo' && hi' <= hi
    ensures Count(h, lo', hi') <= Count(h, lo, hi)
  {
    CountShrinksN(h, |h|, lo, hi, lo', hi');
  }

  lemma {:induction false} CountSplitN(h: seq<int>, n: nat, lo: int, mid: int, hi: int)
    requires n <= |h| && lo <= mid <= hi
    ensures CountN(h, n, lo, hi) == CountN(h, n, lo, mid) + CountN(h, n, mid, hi)
  {
    if n > 0 {
      CountSplitN(h, n - 1, lo, mid, hi);
    }
  }

  lemma {:induction false} CountSplit(h: seq<int>, lo: int, mid: int, hi: int)
    requires lo <= mid <= hi
    ensures Count(h, lo, hi) == Count(h, lo, mid) + Count(h, mid, hi)
  {
    CountSplitN(h, |h|, lo, mid, hi);
  }

  lemma {:induction false} CountAboveN(h: seq<int>, n: nat, t: int, u: int)
    requires n <= |h| && UpTo(h, t)
    ensures CountN(h, n, t, u) == 0
  {
    if n > 0 {
      CountAboveN(h, n - 1, t, u);
    }
  }

  lemma {:induction false} CountAbove(h: seq<int>, t: int, u: int)
    requires UpTo(h, t)
    ensures Count(h, t, u) == 0
  {
    CountAboveN(h, |h|, t, u);
  }

  lemma {:induction false} CountNone(h: seq<int>, n: nat, t: int)
    requires n <= |h|
    ensures CountN(h, n, t, t) == 0
  {
    if n > 0 {
      CountNone(h, n - 1, t);
    }
  }

  /* -------------------------------------------------------------- bounding */

  /** As the window that ends at t moves on past the last member, it only empties. */
  lemma {:induction false} RecentShrinks(h: seq<int>, window: nat, t: int, u: int)
    requires UpTo(h, t) && t <= u
    ensures Recent(h, window, u) <= Recent(h, window, t)
  {
    CountAbove(h, t, u);
    if u - window <= t {
      CountSplit(h, u - window, t, u);
      CountShrinks(h, t - window, t, u - window, t);
    } else {
      CountShrinks(h, t, u, u - window, u);
    }
  }

  /**
   Adding a member at `t`, no earlier than any before it, keeps the bound if there was
   room for it in the window that ends with it.
   */
  lemma {:induction false} BoundedSnoc(h: seq<int>, t: int, window: nat, bound: nat)
    requires Bounded(h, window, bound) && UpTo(h, t)
    requires Recent(h, window, t) < bound
    ensures Bounded(h + [t], window, bound)
  {
    forall u ensures Recent(h + [t], window, u) <= bound {
      CountSnoc(h, t, u - window, u);
      assert Recent(h, window, u) <= bound;
      if t <= u {
        RecentShrinks(h, window, t, u);
      }
    }
  }

  /** A bound per window is a bound for any whole number of windows. */
  lemma {:induction false} BoundedOverMany(h: seq<int>, window: nat, bound: nat, k: nat, t: int)
    requires Bounded(h, window, bound)
    ensures Count(h, t - k * window, t) <= k * bound
  {
    if k == 0 {
      CountNone(h, |h|, t);
    } else {
      var mid := t - (k - 1) * window;
      BoundedOverMany(h, window, bound, k - 1, t);
      assert t - k * window == mid - window && mid <= t;
      CountSplit(h, mid - window, mid, t);
      assert Recent(h, window, mid) <= bound;
      assert k * bound == (k - 1) * bound + bound;
    }
  }
}
