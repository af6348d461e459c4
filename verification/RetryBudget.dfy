/**
 The retry budget (retry_budget.go): at most `max` failed attempts per hostname per
 sliding hour, and no attempt before a rate limit the CA named has lifted.
 */
module RetryBudgets {
  import opened Common
  import opened SlidingWindow
  import opened Names

  /** retryBudgetWindow, in seconds. */
  const WINDOW: nat := 3600

  /** What the budget remembers of one hostname. */
  datatype Account = Account(failures: seq<int>, blocked: Option<int>)

  datatype Verdict = Yes | Wait(left: int)

  datatype Reply = Reply(account: Account, verdict: Verdict)

  predicate StillBlocked(a: Account, t: int) {
    a.blocked.Some? && a.blocked.value - t > 0
  }

  /** allow, with its three readings of the clock: the block, the pruning, the wait. */
  function Allowed(max: nat, a: Account, t1: int, t2: int, t3: int): Reply
    requires max > 0
  {
    if StillBlocked(a, t1) then Reply(a, Wait(a.blocked.value - t1))
    else
      var recent := After(a.failures, t2 - WINDOW);
      Reply(Account(recent, None),
             if |recent| < max then Yes else Wait(recent[0] + WINDOW - t3))
  }

  /** recordFailure, with its two readings of the clock. */
  function Charged(a: Account, t1: int, t2: int): Account {
    a.(failures := After(a.failures, t1 - WINDOW) + [t2])
  }

  class RetryBudget {
    const max: nat
    var failures: map<string, seq<int>>
    var blocked: map<string, int>

    constructor (max: nat)
      requires max > 0
      ensures this.max == max && failures == map[] && blocked == map[]
    {
      this.max := max;
      failures := map[];
      blocked := map[];
    }

    ghost function AccountOf(key: string): Account
      reads this
    {
      Account(if key in failures then failures[key] else [],
              if key in blocked then Some(blocked[key]) else None)
    }

    /** Every hostname but `key` keeps its account. */
    twostate predicate OnlyTouches(key: string)
      reads this
    {
      forall k :: k != key ==> AccountOf(k) == old(AccountOf(k))
    }

    /** Drops failures older than the window, and the entry when none is left. */
    method Prune(key: string, now: int) returns (kept: seq<int>)
      modifies this`failures
      ensures kept == After(old(AccountOf(key)).failures, now - WINDOW)
      ensures AccountOf(key) == old(AccountOf(key)).(failures := kept)
      ensures OnlyTouches(key)
    {
      var cutoff := now - WINDOW;
      var all := if key in failures then failures[key] else [];
      kept := [];
      for i := 0 to |all|
        invariant failures == old(failures)
        invariant kept == AfterN(all, i, cutoff)
      {
        if all[i] > cutoff {
          kept := kept + [all[i]];
        }
      }
      if |kept| == 0 {
        failures := failures - {key};
      } else {
        failures := failures[key := kept];
      }
    }

    method Allow(name: string, t1: int, t2: int, t3: int) returns (left: int, ok: bool)
      requires max > 0
      modifies this
      ensures Reply(AccountOf(BudgetKey(name)), if ok then Yes else Wait(left))
              == Allowed(max, old(AccountOf(BudgetKey(name))), t1, t2, t3)
      ensures ok ==> left == 0
      ensures OnlyTouches(BudgetKey(name))
    {
      var key := BudgetKey(name);
      if key in blocked {
        var wait := blocked[key] - t1;
        if wait > 0 {
          return wait, false;
        }
        blocked := blocked - {key};
      }
      var recent := Prune(key, t2);
      if |recent| < max {
        return 0, true;
      }
      return recent[0] + WINDOW - t3, false;
    }

    method RecordFailure(name: string, t1: int, t2: int)
      modifies this`failures
      ensures AccountOf(BudgetKey(name)) == Charged(old(AccountOf(BudgetKey(name))), t1, t2)
      ensures OnlyTouches(BudgetKey(name))
    {
      var key := BudgetKey(name);
      var kept := Prune(key, t1);
      failures := failures[key := kept + [t2]];
    }

    method Block(name: string, until: int)
      modifies this`blocked
      ensures AccountOf(BudgetKey(name)) == old(AccountOf(BudgetKey(name))).(blocked := Some(until))
      ensures OnlyTouches(BudgetKey(name))
    {
      blocked := blocked[BudgetKey(name) := until];
    }

    method Reset(name: string)
      modifies this
      ensures AccountOf(BudgetKey(name)) == Account([], None)
      ensures OnlyTouches(BudgetKey(name))
    {
      failures := failures - {BudgetKey(name)};
      blocked := blocked - {BudgetKey(name)};
    }
  }

  /* ------------------------------------------------------------- histories */

  /**
   What can happen to one hostname: an attempt asks and, if allowed, is in flight until
   it fails, gives up uncounted or succeeds; a flush resets; the CA blocks.
   */
  datatype Event =
    | Ask(t1: int, t2: int, t3: int)
    | Fail(t1: int, t2: int)
    | GiveUp
    | Succeed
    | Flushed
    | RateLimited(until: int)

  /** `history` is every failure since the last reset; `cut` is where pruning has got to. */
  datatype State = State(account: Account, inFlight: nat, history: seq<int>, clock: int, cut: int)

  predicate Enabled(s: State, e: Event) {
    match e
    case Ask(t1, t2, t3) => s.clock <= t1 <= t2 <= t3
    case Fail(t1, t2) => s.inFlight > 0 && s.clock <= t1 <= t2
    case GiveUp => s.inFlight > 0
    case Succeed => s.inFlight > 0
    case _ => true
  }

  function Step(max: nat, s: State, e: Event): State
    requires max > 0 && Enabled(s, e)
  {
    match e
    case Ask(t1, t2, t3) =>
      var r := Allowed(max, s.account, t1, t2, t3);
      s.(account := r.account, clock := t3,
         inFlight := if r.verdict.Yes? then s.inFlight + 1 else s.inFlight,
         cut := if StillBlocked(s.account, t1) then s.cut else t2 - WINDOW)
    case Fail(t1, t2) =>
      s.(account := Charged(s.account, t1, t2), clock := t2, inFlight := s.inFlight - 1,
         history := s.history + [t2], cut := t1 - WINDOW)
    case GiveUp => s.(inFlight := s.inFlight - 1)
    case Succeed => s.(account := Account([], None), inFlight := s.inFlight - 1, history := [])
    case Flushed => s.(account := Account([], None), history := [])
    case RateLimited(until) => s.(account := s.account.(blocked := Some(until)))
  }

  const START: State := State(Account([], None), 0, [], 0, -3600)

  /** A history in which never more than `c` attempts overlap. */
  ghost predicate IsRun(max: nat, c: nat, states: seq<State>, events: seq<Event>)
    requires max > 0
  {
    && |states| == |events| + 1 && states[0] == START
    && (forall i :: 0 <= i < |events| ==>
          Enabled(states[i], events[i]) && states[i + 1] == Step(max, states[i], events[i]))
    && (forall i :: 0 <= i < |states| ==> states[i].inFlight <= c)
  }

  ghost predicate Inv(max: nat, c: nat, s: State)
    requires max > 0 && c > 0
  {
    && s.inFlight <= c
    && s.cut <= s.clock - WINDOW
    && Sorted(s.history) && UpTo(s.history, s.clock)
    && s.account.failures == After(s.history, s.cut)
    && Recent(s.history, WINDOW, s.clock) + s.inFlight <= max + c - 1
    && Bounded(s.history, WINDOW, max + c - 1)
  }

  lemma {:induction false} AskKeeps(max: nat, c: nat, s: State, e: Event)
    requires max > 0 && c > 0 && Inv(max, c, s) && e.Ask? && Enabled(s, e) && Step(max, s, e).inFlight <= c
    ensures Inv(max, c, Step(max, s, e))
  {
    var h := s.history;
    assert UpTo(h, e.t2) && UpTo(h, e.t3);
    RecentShrinks(h, WINDOW, s.clock, e.t2);
    RecentShrinks(h, WINDOW, e.t2, e.t3);
    assert After(s.account.failures, e.t2 - WINDOW) == After(h, e.t2 - WINDOW) by {
      AfterAfter(h, s.cut, e.t2 - WINDOW);
    }
    assert |After(h, e.t2 - WINDOW)| == Recent(h, WINDOW, e.t2) by {
      AfterIsCount(h, e.t2 - WINDOW, e.t2);
    }
  }

  lemma {:induction false} FailKeeps(max: nat, c: nat, s: State, e: Event)
    requires max > 0 && c > 0 && Inv(max, c, s) && e.Fail? && Enabled(s, e)
    ensures Inv(max, c, Step(max, s, e))
  {
    var h, h' := s.history, s.history + [e.t2];
    assert UpTo(h, e.t2) && UpTo(h', e.t2) && Sorted(h');
    assert Charged(s.account, e.t1, e.t2).failures == After(h', e.t1 - WINDOW) by {
      AfterAfter(h, s.cut, e.t1 - WINDOW);
      AfterSnoc(h, e.t2, e.t1 - WINDOW);
    }
    assert Recent(h', WINDOW, e.t2) == Recent(h, WINDOW, e.t2) + 1 by {
      CountSnoc(h, e.t2, e.t2 - WINDOW, e.t2);
    }
    RecentShrinks(h, WINDOW, s.clock, e.t2);
    assert Bounded(h', WINDOW, max + c - 1) by {
      BoundedSnoc(h, e.t2, WINDOW, max + c - 1);
    }
  }

  lemma {:induction false} StepKeeps(max: nat, c: nat, s: State, e: Event)
    requires max > 0 && c > 0 && Inv(max, c, s) && Enabled(s, e) && Step(max, s, e).inFlight <= c
    ensures Inv(max, c, Step(max, s, e))
  {
    match e {
      case Ask(_, _, _) => AskKeeps(max, c, s, e);
      case Fail(_, _) => FailKeeps(max, c, s, e);
      case _ => assert forall t :: Recent([], WINDOW, t) == 0;
    }
  }

  lemma {:induction false} RunKeeps(max: nat, c: nat, states: seq<State>, events: seq<Event>, n: nat)
    requires max > 0 && c > 0 && IsRun(max, c, states, events) && n < |states|
    ensures Inv(max, c, states[n])
  {
    if n == 0 {
      assert forall t :: Recent([], WINDOW, t) == 0;
    } else {
      RunKeeps(max, c, states, events, n - 1);
      assert states[n] == Step(max, states[n - 1], events[n - 1]);
      StepKeeps(max, c, states[n - 1], events[n - 1]);
    }
  }

  /**
   Between resets every sliding hour holds fewer than `max + c` failures when at most
   c attempts for the hostname overlap, and what is remembered is in time order.
   */
  lemma {:induction false} FailuresAreBounded(max: nat, c: nat, states: seq<State>, events: seq<Event>, n: nat, t: int)
    requires max > 0 && c > 0 && IsRun(max, c, states, events) && n < |states|
    ensures Count(states[n].history, t - WINDOW, t) <= max + c - 1
    ensures Sorted(states[n].account.failures)
  {
    RunKeeps(max, c, states, events, n);
    assert Recent(states[n].history, WINDOW, t) <= max + c - 1;
    AfterSorted(states[n].history, states[n].cut, states[n].clock);
  }

  /** Attempts made one after another, the budget's own promise: at most `max` an hour. */
  lemma {:induction false} SerialFailuresAreBounded(max: nat, states: seq<State>, events: seq<Event>, n: nat, t: int)
    requires max > 0 && IsRun(max, 1, states, events) && n < |states|
    ensures Count(states[n].history, t - WINDOW, t) <= max
  {
    FailuresAreBounded(max, 1, states, events, n, t);
  }

  /* ------------------------------------------------------ the bound is reached */

  function Zeros(n: nat): (r: seq<int>) {
    seq(n, i => 0)
  }

  /** n failures at time 0 and j attempts in flight. */
  function AtZero(n: nat, j: nat): State {
    State(Account(Zeros(n), None), j, Zeros(n), 0, -3600)
  }

  lemma {:induction false} ZerosCount(n: nat)
    ensures After(Zeros(n), 0 - WINDOW) == Zeros(n)
    ensures Count(Zeros(n), 0 - WINDOW, 0) == n
  {
    if n > 0 {
      AfterSuffix(Zeros(n), 0 - WINDOW);
    }
    AfterIsCount(Zeros(n), 0 - WINDOW, 0);
  }

  lemma {:induction false} ZeroSteps(max: nat, n: nat, j: nat)
    requires max > 0
    ensures n < max ==> Step(max, AtZero(n, j), Ask(0, 0, 0)) == AtZero(n, j + 1)
    ensures j > 0 ==> Step(max, AtZero(n, j), Fail(0, 0)) == AtZero(n + 1, j - 1)
  {
    ZerosCount(n);
    assert Zeros(n) + [0] == Zeros(n + 1);
  }

  lemma {:induction false} Grow(max: nat, c: nat, states: seq<State>, events: seq<Event>, e: Event, s: State)
    returns (states': seq<State>, events': seq<Event>)
    requires max > 0 && IsRun(max, c, states, events) && Enabled(states[|states| - 1], e)
    requires s == Step(max, states[|states| - 1], e) && s.inFlight <= c
    ensures IsRun(max, c, states', events') && states'[|states'| - 1] == s
  {
    hide Step, Enabled;
    states', events' := states + [s], events + [e];
    forall i | 0 <= i < |events'|
      ensures Enabled(states'[i], events'[i]) && states'[i + 1] == Step(max, states'[i], events'[i])
    {
      if i < |events| {
        assert states'[i] == states[i] && events'[i] == events[i] && states'[i + 1] == states[i + 1];
      }
    }
  }

  /**
   allow is asked before the lease is taken, so attempts that overlap, a domain's and its
   companion's, are all told yes for the last place in the budget. The bound is exact: for
   every budget and every overlap some run has max + c - 1 failures within one hour, so the
   hour holds at most `max` if and only if attempts do not overlap.
   */
  lemma {:induction false} BoundIsReached(max: nat, c: nat) returns (states: seq<State>, events: seq<Event>)
    requires max > 0 && c > 0
    ensures IsRun(max, c, states, events)
    ensures Count(states[|states| - 1].history, 0 - WINDOW, 0) == max + c - 1
  {
    states, events := [START], [];
    assert START == AtZero(0, 0);
    for n := 0 to max - 1
      invariant IsRun(max, c, states, events) && states[|states| - 1] == AtZero(n, 0)
    {
      ZeroSteps(max, n, 0);
      ZeroSteps(max, n, 1);
      states, events := Grow(max, c, states, events, Ask(0, 0, 0), AtZero(n, 1));
      states, events := Grow(max, c, states, events, Fail(0, 0), AtZero(n + 1, 0));
    }
    for j := 0 to c
      invariant IsRun(max, c, states, events) && states[|states| - 1] == AtZero(max - 1, j)
    {
      ZeroSteps(max, max - 1, j);
      states, events := Grow(max, c, states, events, Ask(0, 0, 0), AtZero(max - 1, j + 1));
    }
    for j := 0 to c
      invariant IsRun(max, c, states, events) && states[|states| - 1] == AtZero(max - 1 + j, c - j)
    {
      ZeroSteps(max, max - 1 + j, c - j);
      states, events := Grow(max, c, states, events, Fail(0, 0), AtZero(max + j, c - j - 1));
    }
    ZerosCount(max + c - 1);
  }

  /** However an attempt ends, it is one less in flight; only a failure is remembered, and a success or a flush forgets all. */
  lemma {:induction false} AttemptsEnd(max: nat, s: State, e: Event, t1: int, t2: int, t3: int)
    requires max > 0 && Enabled(s, e)
    ensures e.Fail? || e.GiveUp? || e.Succeed? ==> Step(max, s, e).inFlight == s.inFlight - 1
    ensures e.GiveUp? ==> Step(max, s, e).account == s.account && Step(max, s, e).history == s.history
    ensures e.Fail? ==> Step(max, s, e).history == s.history + [e.t2]
    ensures e.Succeed? || e.Flushed? ==> Allowed(max, Step(max, s, e).account, t1, t2, t3).verdict.Yes?
  {
    assert After([], t2 - WINDOW) == [];
  }

  /* ---------------------------------------------------------- the CA's limit */

  /** Neither a reset nor another block. */
  predicate KeepsBlock(e: Event) {
    !e.Succeed? && !e.Flushed? && !e.RateLimited?
  }

  lemma {:induction false} BlockSince(max: nat, c: nat, states: seq<State>, events: seq<Event>, i: nat, j: nat, until: int)
    requires max > 0 && IsRun(max, c, states, events) && i < j < |states| && events[i] == RateLimited(until)
    requires forall k :: i < k < j ==> KeepsBlock(events[k])
    requires states[j].clock < until
    ensures states[j].account.blocked == Some(until)
  {
    assert Enabled(states[j - 1], events[j - 1]) && states[j] == Step(max, states[j - 1], events[j - 1]);
    if j > i + 1 {
      BlockSince(max, c, states, events, i, j - 1, until);
    }
  }

  /**
   Once the CA has named a rate limit, every attempt before it lifts is refused with exactly
   the time that is left, until a success, a flush or another limit.
   */
  lemma {:induction false} RateLimitHolds(max: nat, c: nat, states: seq<State>, events: seq<Event>, i: nat, j: nat, until: int)
    requires max > 0 && IsRun(max, c, states, events) && i < j < |events| && events[i] == RateLimited(until)
    requires forall k :: i < k < j ==> KeepsBlock(events[k])
    requires events[j].Ask? && events[j].t1 < until
    ensures Allowed(max, states[j].account, events[j].t1, events[j].t2, events[j].t3).verdict == Wait(until - events[j].t1)
    ensures states[j + 1].inFlight == states[j].inFlight
  {
    assert Enabled(states[j], events[j]) && states[j + 1] == Step(max, states[j], events[j]);
    BlockSince(max, c, states, events, i, j, until);
  }

  /** And once it has lifted, it is forgotten. */
  lemma {:induction false} LiftedLimitIsForgotten(max: nat, a: Account, t1: int, t2: int, t3: int)
    requires max > 0 && a.blocked.Some? && a.blocked.value <= t1
    ensures Allowed(max, a, t1, t2, t3) == Allowed(max, a.(blocked := None), t1, t2, t3)
    ensures Allowed(max, a, t1, t2, t3).account.blocked.None?
  {
  }

  /* ------------------------------------------------------------------ wait */

  /** Until the oldest failure that counts ages out, none does. */
  lemma {:induction false} NoneAgesOut(failures: seq<int>, now: int, t: int)
    requires Sorted(failures) && UpTo(failures, now) && now <= t
    requires After(failures, now - WINDOW) != [] && t - WINDOW < After(failures, now - WINDOW)[0]
    ensures After(failures, t - WINDOW) == After(failures, now - WINDOW)
  {
    AfterSorted(failures, now - WINDOW, now);
    AfterAfter(failures, now - WINDOW, t - WINDOW);
    AfterSuffix(After(failures, now - WINDOW), t - WINDOW);
  }

  /**
   The wait returned when the budget is spent lies in (0, 1h]; no attempt is allowed
   sooner; and one is allowed exactly then if and only if fewer than `max` failures are
   later than the oldest one that counts.
   */
  lemma {:induction false} WaitIsExact(max: nat, a: Account, now: int)
    requires max > 0 && a.blocked.None? && Sorted(a.failures) && UpTo(a.failures, now)
    requires Allowed(max, a, now, now, now).verdict.Wait?
    ensures var left := Allowed(max, a, now, now, now).verdict.left;
            && 0 < left <= WINDOW
            && (forall t :: now <= t < now + left ==> Allowed(max, a, t, t, t).verdict.Wait?)
            && (Allowed(max, a, now + left, now + left, now + left).verdict.Yes? <==>
                var recent := After(a.failures, now - WINDOW); |After(recent, recent[0])| < max)
  {
    var recent := After(a.failures, now - WINDOW);
    AfterSorted(a.failures, now - WINDOW, now);
    assert now - WINDOW < recent[0] <= now;
    var left := recent[0] + WINDOW - now;
    forall t | now <= t < now + left ensures Allowed(max, a, t, t, t).verdict.Wait? {
      NoneAgesOut(a.failures, now, t);
    }
    AfterAfter(a.failures, now - WINDOW, recent[0]);
  }

  /** In a serial run the condition always holds: the wait is the earliest yes. */
  lemma {:induction false} SerialWaitIsEarliest(max: nat, states: seq<State>, events: seq<Event>, n: nat, now: int)
    requires max > 0 && IsRun(max, 1, states, events) && n < |states|
    requires states[n].clock <= now && states[n].account.blocked.None?
    requires Allowed(max, states[n].account, now, now, now).verdict.Wait?
    ensures var a := states[n].account;
            var left := Allowed(max, a, now, now, now).verdict.left;
            Allowed(max, a, now + left, now + left, now + left).verdict.Yes?
  {
    RunKeeps(max, 1, states, events, n);
    SerialAccount(max, states[n], now);
    WaitIsExact(max, states[n].account, now);
    var recent := After(states[n].account.failures, now - WINDOW);
    FewerAfterOldestN(recent, |recent|);
  }

  lemma {:induction false} SerialAccount(max: nat, s: State, now: int)
    requires max > 0 && Inv(max, 1, s) && s.clock <= now
    ensures Sorted(s.account.failures) && UpTo(s.account.failures, now)
    ensures |After(s.account.failures, now - WINDOW)| <= max
  {
    AfterSorted(s.history, s.cut, now);
    AfterAfter(s.history, s.cut, now - WINDOW);
    AfterIsCount(s.history, now - WINDOW, now);
    assert Recent(s.history, WINDOW, now) <= max;
  }
}
