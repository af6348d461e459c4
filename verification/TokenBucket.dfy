/**
 The new-order budget of on-demand hostnames (ondemand.go): at most `max` orders per
 window. `take` reads the clock twice, once for the cutoff and once for the entry.
 */
module TokenBuckets {
  import opened SlidingWindow

  datatype Call = Call(cut: int, stamp: int)

  datatype Outcome = Outcome(events: seq<int>, granted: bool)

  /** What one call of take makes of the list of remembered grants. */
  function Taken(max: nat, window: nat, events: seq<int>, c: Call): Outcome {
    var kept := After(events, c.cut - window);
    if |kept| >= max then Outcome(kept, false) else Outcome(kept + [c.stamp], true)
  }

  class TokenBucket {
    const max: nat
    const window: nat
    var buf: array<int>
    var len: nat

    ghost predicate Valid()
      reads this
    {
      len <= buf.Length
    }

    ghost function Events(): seq<int>
      reads this, buf
      requires Valid()
    {
      buf[..len]
    }

    constructor (max: nat, window: nat)
      ensures Valid() && this.max == max && this.window == window && Events() == []
      ensures fresh(buf)
    {
      this.max := max;
      this.window := window;
      buf := new int[0];
      len := 0;
    }

    /**
     Consumes one token. Old grants are filtered out within the list's own buffer: the
     write position never passes the read position.
     */
    method Take(cut: int, stamp: int) returns (ok: bool)
      requires Valid()
      modifies this, buf
      ensures Valid() && (buf == old(buf) || fresh(buf))
      ensures Outcome(Events(), ok) == Taken(max, window, old(Events()), Call(cut, stamp))
    {
      var cutoff := cut - window;
      var kept := 0;
      ghost var was := buf[..len];
      for i := 0 to len
        invariant Valid() && buf == old(buf) && len == old(len)
        invariant kept <= i
        invariant buf[..kept] == AfterN(was, i, cutoff)
        invariant forall k :: i <= k < len ==> buf[k] == was[k]
      {
        if buf[i] > cutoff {
          buf[kept] := buf[i];
          kept := kept + 1;
        }
      }
      len := kept;
      if len >= max {
        return false;
      }
      Append(stamp);
      return true;
    }

    /** append: in place while there is room, else into a larger buffer. */
    method Append(t: int)
      requires Valid()
      modifies this, buf
      ensures Valid() && (buf == old(buf) || fresh(buf))
      ensures Events() == old(Events()) + [t]
    {
      if len == buf.Length {
        var bigger := new int[2 * len + 1](i => 0);
        for i := 0 to len
          invariant len == old(len) && buf == old(buf) && buf[..] == old(buf[..])
          invariant bigger[..i] == buf[..i]
        {
          bigger[i] := buf[i];
        }
        buf := bigger;
      }
      buf[len] := t;
      len := len + 1;
    }
  }

  /** The clock never goes back, within a call or between calls. */
  predicate Monotone(calls: seq<Call>) {
    && (forall i :: 0 <= i < |calls| ==> calls[i].cut <= calls[i].stamp)
    && (forall i, j :: 0 <= i < j < |calls| ==> calls[i].stamp <= calls[j].cut)
  }

  /** The list a bucket remembers after a history of calls. */
  function Remembered(max: nat, window: nat, calls: seq<Call>): seq<int> {
    if calls == [] then []
    else Taken(max, window, Remembered(max, window, calls[..|calls| - 1]), calls[|calls| - 1]).events
  }

  /** Every grant the bucket ever made. */
  function Grants(max: nat, window: nat, calls: seq<Call>): seq<int> {
    if calls == [] then []
    else
      var before, c := calls[..|calls| - 1], calls[|calls| - 1];
      Grants(max, window, before) +
      (if Taken(max, window, Remembered(max, window, before), c).granted then [c.stamp] else [])
  }

  /** The full history `g` and what is remembered of it, after a call that cut at `cut`. */
  ghost predicate Tracks(max: nat, window: nat, g: seq<int>, events: seq<int>, c: Call) {
    && UpTo(g, c.stamp)
    && events == After(g, c.cut - window)
    && Bounded(g, window, max)
  }

  /** A grant there was room for joins the history and the list alike. */
  lemma {:induction false} GrantTracks(max: nat, window: nat, g: seq<int>, c: Call)
    requires UpTo(g, c.stamp) && Bounded(g, window, max) && window > 0 && c.cut <= c.stamp
    requires Count(g, c.cut - window, c.stamp) < max
    ensures Tracks(max, window, g + [c.stamp], After(g, c.cut - window) + [c.stamp], c)
  {
    assert UpTo(g + [c.stamp], c.stamp);
    assert After(g + [c.stamp], c.cut - window) == After(g, c.cut - window) + [c.stamp] by {
      AfterSnoc(g, c.stamp, c.cut - window);
    }
    assert Bounded(g + [c.stamp], window, max) by {
      CountShrinks(g, c.cut - window, c.stamp, c.stamp - window, c.stamp);
      BoundedSnoc(g, c.stamp, window, max);
    }
  }

  lemma {:induction false} TakenTracks(max: nat, window: nat, g: seq<int>, events: seq<int>, last: Call, c: Call)
    requires Tracks(max, window, g, events, last) && window > 0
    requires last.cut <= last.stamp <= c.cut <= c.stamp
    ensures var out := Taken(max, window, events, c);
            && (out.granted <==> Count(g, c.cut - window, c.stamp) < max)
            && Tracks(max, window, if out.granted then g + [c.stamp] else g, out.events, c)
  {
    var cutoff := c.cut - window;
    assert UpTo(g, c.stamp);
    assert After(events, cutoff) == After(g, cutoff) by {
      AfterAfter(g, last.cut - window, cutoff);
    }
    assert |After(g, cutoff)| == Count(g, cutoff, c.stamp) by {
      AfterIsCount(g, cutoff, c.stamp);
    }
    if |After(g, cutoff)| < max {
      GrantTracks(max, window, g, c);
    }
  }

  /** A call no later than anything in the history. */
  function LastOf(calls: seq<Call>, c: Call): Call {
    if calls == [] then Call(c.cut, c.cut) else calls[|calls| - 1]
  }

  lemma {:induction false} HistoryTracks(max: nat, window: nat, calls: seq<Call>, c: Call)
    requires Monotone(calls) && window > 0
    ensures Tracks(max, window, Grants(max, window, calls), Remembered(max, window, calls), LastOf(calls, c))
  {
    if calls == [] {
      assert forall t :: Recent([], window, t) == 0;
    } else {
      var before, d := calls[..|calls| - 1], calls[|calls| - 1];
      HistoryTracks(max, window, before, d);
      TakenTracks(max, window, Grants(max, window, before), Remembered(max, window, before), LastOf(before, d), d);
      assert Grants(max, window, before) + [] == Grants(max, window, before);
    }
  }

  /** Over any history, every window (t - window, t] holds at most `max` grants. */
  lemma {:induction false} GrantsAreBounded(max: nat, window: nat, calls: seq<Call>, t: int)
    requires Monotone(calls) && window > 0
    ensures Count(Grants(max, window, calls), t - window, t) <= max
  {
    HistoryTracks(max, window, calls, Call(0, 0));
    assert Recent(Grants(max, window, calls), window, t) <= max;
  }

  /** The pruned list decides exactly as a count over everything ever granted. */
  lemma {:induction false} PrunedDecidesAsFull(max: nat, window: nat, calls: seq<Call>, c: Call)
    requires Monotone(calls) && window > 0
    requires c.cut <= c.stamp && forall i :: 0 <= i < |calls| ==> calls[i].stamp <= c.cut
    ensures Taken(max, window, Remembered(max, window, calls), c).granted <==>
            Count(Grants(max, window, calls), c.cut - window, c.stamp) < max
  {
    HistoryTracks(max, window, calls, c);
    TakenTracks(max, window, Grants(max, window, calls), Remembered(max, window, calls), LastOf(calls, c), c);
  }

  /** The defaults of OnDemandConfig, and Let's Encrypt's limit per account per three hours. */
  const MAX_NEW_ORDERS_PER_HOUR: nat := 40
  const HOUR: nat := 3600
  const CA_NEW_ORDERS_PER_3_HOURS: nat := 300

  /** Two nodes that both believe they lead stay under the CA's limit together. */
  lemma {:induction false} SplitBrainStaysUnderTheLimit(one: seq<Call>, other: seq<Call>, t: int)
    requires Monotone(one) && Monotone(other)
    ensures Count(Grants(MAX_NEW_ORDERS_PER_HOUR, HOUR, one), t - 3 * HOUR, t)
            + Count(Grants(MAX_NEW_ORDERS_PER_HOUR, HOUR, other), t - 3 * HOUR, t)
            <= 240 < CA_NEW_ORDERS_PER_3_HOURS
  {
    HistoryTracks(MAX_NEW_ORDERS_PER_HOUR, HOUR, one, Call(0, 0));
    HistoryTracks(MAX_NEW_ORDERS_PER_HOUR, HOUR, other, Call(0, 0));
    BoundedOverMany(Grants(MAX_NEW_ORDERS_PER_HOUR, HOUR, one), HOUR, MAX_NEW_ORDERS_PER_HOUR, 3, t);
    BoundedOverMany(Grants(MAX_NEW_ORDERS_PER_HOUR, HOUR, other), HOUR, MAX_NEW_ORDERS_PER_HOUR, 3, t);
  }
}
