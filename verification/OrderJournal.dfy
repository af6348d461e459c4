/**
 Placing and collecting ACME orders (issuer.go) with the order journal (order_journal.go)
 of one name, against the order states of section 7.1.6 of RFC 8555. Attempts for the
 name are serialized by its lease; every call to storage or to the CA is one step, and an
 attempt can stop before any of them. An order costs at the moment the CA accepts its
 finalization.
 */
module OrderJournal {
  import opened Common

  type Key = nat
  type Url = nat

  /** orderMaxAge, in seconds. */
  const ORDER_MAX_AGE: int := 7 * 24 * 3600

  /** `Open` is pending or ready. */
  datatype Status = Open | Processing | Valid | Invalid

  /** An order at the CA: the key its request named once finalized, and whether we have its chain. */
  datatype Order = Order(status: Status, key: Option<Key>, placedAt: int, expires: int, collected: bool)

  datatype Record = Record(url: Url, key: Key, createdAt: int)

  /** What GetOrder answers: the order, a client error, or nothing definite. */
  datatype Lookup = Told | Rejected | Unavailable

  datatype Phase =
    | Idle
    | Loading(k: Key)
    | Looking(k: Key, url: Url)
    | Placing(k: Key)
    | Recording(k: Key, url: Url)
    | Completing(k: Key, url: Url)
    | Waiting(k: Key, url: Url)
    | Fetching(k: Key, url: Url)
    | Clearing(k: Key, url: Url)

  datatype State = State(now: int, orders: map<Url, Order>, journal: Option<Record>, phase: Phase)

  datatype Step =
    | Tick(to: int)
    | Sign(url: Url)
    | Invalidate(url: Url)
    | Stop
    | Begin(k: Key)
    | LoadJournal(fails: bool, clear: Write)
    | GetOrder(answer: Lookup, clear: Write)
    | Authorize(url: Url, expires: int, lost: bool)
    | Journal(w: Write)
    | Finalize(lost: bool)
    | AwaitOrder(fails: bool)
    | Fetch(fails: bool)
    | ClearJournal(w: Write)

  predicate Signed(o: Order) {
    o.status.Valid? || o.status.Processing?
  }

  /** Paid for, not collected and still there to be collected. */
  predicate Outstanding(s: State, url: Url) {
    url in s.orders && Signed(s.orders[url]) && !s.orders[url].collected && s.now <= s.orders[url].expires
  }

  predicate Spent(s: State, o: Order) {
    o.status.Invalid? || s.now > o.expires
  }

  predicate TooOld(s: State, rec: Record) {
    s.now - rec.createdAt > ORDER_MAX_AGE
  }

  predicate Enabled(s: State, step: Step) {
    match step
    case Tick(to) => s.now <= to
    case Sign(url) => url in s.orders && s.orders[url].status.Processing?
    case Invalidate(url) => url in s.orders && (s.orders[url].status.Open? || s.orders[url].status.Processing?)
    case Stop => true
    case Begin(_) => s.phase.Idle?
    case LoadJournal(_, _) => s.phase.Loading?
    case GetOrder(answer, _) => s.phase.Looking? && (answer.Told? ==> s.phase.url in s.orders)
    case Authorize(url, _, _) => s.phase.Placing? && url !in s.orders
    case Journal(_) => s.phase.Recording?
    case Finalize(_) => s.phase.Completing? && s.phase.url in s.orders
    case AwaitOrder(_) => s.phase.Waiting? && s.phase.url in s.orders
    case Fetch(_) => s.phase.Fetching? && s.phase.url in s.orders
    case ClearJournal(_) => s.phase.Clearing?
  }

  /** A best-effort removal of the record. */
  function Cleared(s: State, w: Write): State {
    if w.Lost? then s else s.(journal := None)
  }

  function Update(s: State, url: Url, o: Order): State {
    s.(orders := s.orders[url := o])
  }

  function Apply(s: State, step: Step): State
    requires Enabled(s, step)
  {
    match step
    case Tick(to) => s.(now := to)
    case Sign(url) => Update(s, url, s.orders[url].(status := Valid))
    case Invalidate(url) => Update(s, url, s.orders[url].(status := Invalid))
    case Stop => s.(phase := Idle)
    case Begin(k) => s.(phase := Loading(k))
    case LoadJournal(fails, clear) =>
      var k := s.phase.k;
      if fails then s.(phase := Idle)
      else if s.journal.None? then s.(phase := Placing(k))
      else if TooOld(s, s.journal.value) then Cleared(s, clear).(phase := Placing(k))
      else if s.journal.value.key != k then s.(phase := Placing(k))
      else s.(phase := Looking(k, s.journal.value.url))
    case GetOrder(answer, clear) =>
      var k, url := s.phase.k, s.phase.url;
      if answer.Unavailable? then s.(phase := Idle)
      else if answer.Rejected? || Spent(s, s.orders[url]) then Cleared(s, clear).(phase := Placing(k))
      else if s.orders[url].status.Valid? then s.(phase := Fetching(k, url))
      else if s.orders[url].status.Processing? then s.(phase := Waiting(k, url))
      else s.(phase := Completing(k, url))
    case Authorize(url, expires, lost) =>
      Update(s, url, Order(Open, None, s.now, expires, false)).(phase := if lost then Idle else Recording(s.phase.k, url))
    case Journal(w) =>
      var k, url := s.phase.k, s.phase.url;
      (if w.Lost? then s else s.(journal := Some(Record(url, k, s.now)))).(phase := Completing(k, url))
    case Finalize(lost) =>
      var k, url := s.phase.k, s.phase.url;
      if !s.orders[url].status.Open? then s.(phase := Idle)
      else
        Update(s, url, s.orders[url].(status := Processing, key := Some(k)))
        .(phase := if lost then Idle else Waiting(k, url))
    case AwaitOrder(fails) =>
      var k, url := s.phase.k, s.phase.url;
      s.(phase := if fails || !s.orders[url].status.Valid? then Idle else Fetching(k, url))
    case Fetch(fails) =>
      var k, url := s.phase.k, s.phase.url;
      if fails then s.(phase := Idle)
      else Update(s, url, s.orders[url].(collected := true)).(phase := Clearing(k, url))
    case ClearJournal(w) => Cleared(s, w).(phase := Idle)
  }

  ghost predicate Init(s: State) {
    s.orders == map[] && s.journal.None? && s.phase.Idle?
  }

  ghost predicate IsRun(states: seq<State>, steps: seq<Step>) {
    && |states| == |steps| + 1 && Init(states[0])
    && forall i :: 0 <= i < |steps| ==> Enabled(states[i], steps[i]) && states[i + 1] == Apply(states[i], steps[i])
  }

  /* ------------------------------------------------------- the collected chain */

  ghost predicate PhaseKnown(s: State) {
    match s.phase
    case Recording(_, url) => url in s.orders && s.orders[url].key.None?
    case Looking(k, url) => url in s.orders && KeyFits(s, url, k)
    case Completing(k, url) => url in s.orders && KeyFits(s, url, k)
    case Waiting(k, url) => url in s.orders && s.orders[url].key == Some(k)
    case Fetching(k, url) => url in s.orders && s.orders[url].key == Some(k)
    case _ => true
  }

  predicate KeyFits(s: State, url: Url, k: Key)
    requires url in s.orders
  {
    s.orders[url].key == None || s.orders[url].key == Some(k)
  }

  /** A finalized order has a key; a journaled one has the journaled key. */
  ghost predicate KeysInv(s: State) {
    && (forall url :: url in s.orders && Signed(s.orders[url]) ==> s.orders[url].key.Some?)
    && (s.journal.Some? ==> s.journal.value.url in s.orders && KeyFits(s, s.journal.value.url, s.journal.value.key))
    && PhaseKnown(s)
    && (s.phase.Recording? || s.phase.Looking? || s.phase.Completing? ==>
          s.journal.Some? && s.journal.value.url == s.phase.url ==> s.journal.value.key == s.phase.k)
  }

  lemma {:induction false} KeysStep(s: State, step: Step)
    requires KeysInv(s) && Enabled(s, step)
    ensures KeysInv(Apply(s, step))
  {
  }

  lemma {:induction false} RunKeepsKeys(states: seq<State>, steps: seq<Step>, i: nat)
    requires IsRun(states, steps) && i < |states|
    ensures KeysInv(states[i])
  {
    if i > 0 {
      RunKeepsKeys(states, steps, i - 1);
      KeysStep(states[i - 1], steps[i - 1]);
    }
  }

  /** Whatever was interrupted before, a chain is collected only for the key that was asked for. */
  lemma {:induction false} CollectedChainIsForTheKey(states: seq<State>, steps: seq<Step>, i: nat)
    requires IsRun(states, steps) && i < |steps| && steps[i].Fetch?
    ensures states[i].phase.url in states[i].orders
    ensures states[i].orders[states[i].phase.url].key == Some(states[i].phase.k)
  {
    RunKeepsKeys(states, steps, i);
    assert Enabled(states[i], steps[i]);
  }

  /* -------------------------------------------------- one paid order at a time */

  /**
   The side conditions: every attempt for the name uses the one key, a journal write
   reaches storage, the CA expires an order within orderMaxAge of placing it, and rejects
   a lookup only of an order that is not outstanding.
   */
  predicate Orderly(s: State, step: Step, key: Key) {
    Fair(s, step) && (step.Begin? ==> step.k == key)
  }

  /** All of them but the first. */
  predicate Fair(s: State, step: Step) {
    match step
    case Journal(w) => !w.Lost?
    case Authorize(_, expires, _) => expires <= s.now + ORDER_MAX_AGE
    case GetOrder(answer, _) => s.phase.Looking? && (answer.Rejected? ==> !Outstanding(s, s.phase.url))
    case _ => true
  }

  ghost predicate OrderlyRun(states: seq<State>, steps: seq<Step>, key: Key) {
    |states| == |steps| + 1 && forall i :: 0 <= i < |steps| ==> Orderly(states[i], steps[i], key)
  }

  predicate UsesKey(p: Phase, key: Key) {
    p.Idle? || p.k == key
  }

  /** Orders expire within orderMaxAge, and a record is no older than its order. */
  ghost predicate AgesInv(s: State) {
    && (forall url :: url in s.orders ==> s.orders[url].placedAt <= s.now && s.orders[url].expires <= s.orders[url].placedAt + ORDER_MAX_AGE)
    && (s.journal.Some? ==>
          && s.journal.value.url in s.orders
          && s.orders[s.journal.value.url].placedAt <= s.journal.value.createdAt)
  }

  ghost predicate PaidInv(s: State, key: Key) {
    && (forall url :: Outstanding(s, url) ==> s.journal.Some? && s.journal.value.url == url)
    && AgesInv(s) && (s.journal.Some? ==> s.journal.value.key == key)
    && UsesKey(s.phase, key)
    && (s.phase.Placing? || s.phase.Recording? ==> NoneOutstanding(s))
    && (AtOrder(s.phase) ==> s.journal.Some? && s.journal.value.url == s.phase.url)
    && (s.phase.Clearing? ==> s.phase.url in s.orders && s.orders[s.phase.url].collected)
  }

  /** The attempt is working on the journaled order. */
  predicate AtOrder(p: Phase) {
    p.Looking? || p.Completing? || p.Waiting? || p.Fetching? || p.Clearing?
  }

  ghost predicate NoneOutstanding(s: State) {
    forall url :: !Outstanding(s, url)
  }

  /** Only accepting a finalization makes an order outstanding. */
  lemma {:induction false} OutstandingFrom(s: State, step: Step, url: Url)
    requires Enabled(s, step) && Outstanding(Apply(s, step), url)
    ensures Outstanding(s, url) || (step.Finalize? && url == s.phase.url)
  {
  }

  lemma {:induction false} PaidStep(s: State, step: Step, key: Key)
    requires KeysInv(s) && PaidInv(s, key) && Enabled(s, step) && Orderly(s, step, key)
    ensures PaidInv(Apply(s, step), key)
  {
    var t := Apply(s, step);
    forall url | Outstanding(t, url)
      ensures t.journal.Some? && t.journal.value.url == url && !t.phase.Placing? && !t.phase.Recording?
    {
      OutstandingFrom(s, step, url);
    }
  }

  lemma {:induction false} InitIsPaid(s: State, key: Key)
    requires Init(s)
    ensures PaidInv(s, key)
  {
  }

  lemma {:induction false} RunKeepsPaid(states: seq<State>, steps: seq<Step>, key: Key, i: nat)
    requires IsRun(states, steps) && OrderlyRun(states, steps, key) && i < |states|
    ensures PaidInv(states[i], key)
  {
    hide Apply, Enabled, Init, Orderly, PaidInv, KeysInv;
    if i == 0 {
      InitIsPaid(states[0], key);
    } else {
      RunKeepsPaid(states, steps, key, i - 1);
      RunKeepsKeys(states, steps, i - 1);
      assert states[i] == Apply(states[i - 1], steps[i - 1]);
      PaidStep(states[i - 1], steps[i - 1], key);
    }
  }

  /**
   Under any interruptions and retries, an order that has been paid for stays journaled
   until it is collected or gone, at most one is outstanding, and neither a new order is
   placed nor any other finalized while one is.
   */
  lemma {:induction false} OnePaidOrderAtATime(states: seq<State>, steps: seq<Step>, key: Key, i: nat, url: Url)
    requires IsRun(states, steps) && OrderlyRun(states, steps, key) && i < |steps|
    requires Outstanding(states[i], url)
    ensures states[i].journal.Some? && states[i].journal.value.url == url
    ensures forall other :: Outstanding(states[i], other) ==> other == url
    ensures !steps[i].Authorize? && (steps[i].Finalize? ==> states[i].phase.url == url)
  {
    RunKeepsPaid(states, steps, key, i);
    assert Enabled(states[i], steps[i]);
  }

  /** An order is placed only when nothing paid for is waiting to be collected. */
  lemma {:induction false} OrderPlacedOnlyWhenNoneIsOutstanding(states: seq<State>, steps: seq<Step>, key: Key, i: nat)
    requires IsRun(states, steps) && OrderlyRun(states, steps, key) && i < |steps| && steps[i].Authorize?
    ensures NoneOutstanding(states[i])
  {
    RunKeepsPaid(states, steps, key, i);
    assert Enabled(states[i], steps[i]);
  }

  lemma {:induction false} Grow(states: seq<State>, steps: seq<Step>, step: Step)
    returns (states': seq<State>, steps': seq<Step>)
    requires IsRun(states, steps) && Enabled(Last(states), step)
    ensures IsRun(states', steps') && Last(states') == Apply(Last(states), step)
    ensures states <= states' && steps' == steps + [step]
  {
    hide Apply, Enabled, Init;
    states', steps' := states + [Apply(Last(states), step)], steps + [step];
    forall i | 0 <= i < |steps'|
      ensures Enabled(states'[i], steps'[i]) && states'[i + 1] == Apply(states'[i], steps'[i])
    {
      if i < |steps| {
        assert states'[i] == states[i] && steps'[i] == steps[i] && states'[i + 1] == states[i + 1];
      }
    }
  }

  /* ------------------------------------------------------------- the one slot */

  ghost predicate FairRun(states: seq<State>, steps: seq<Step>) {
    |states| == |steps| + 1 && forall i :: 0 <= i < |steps| ==> Fair(states[i], steps[i])
  }

  lemma {:induction false} AgesStep(s: State, step: Step)
    requires KeysInv(s) && AgesInv(s) && Enabled(s, step) && Fair(s, step)
    ensures AgesInv(Apply(s, step))
  {
  }

  lemma {:induction false} RunKeepsAges(states: seq<State>, steps: seq<Step>, i: nat)
    requires IsRun(states, steps) && FairRun(states, steps) && i < |states|
    ensures AgesInv(states[i])
  {
    if i > 0 {
      hide Apply, Enabled, Fair, AgesInv, KeysInv;
      RunKeepsAges(states, steps, i - 1);
      RunKeepsKeys(states, steps, i - 1);
      assert states[i] == Apply(states[i - 1], steps[i - 1]);
      AgesStep(states[i - 1], steps[i - 1]);
    }
  }

  /** The journal names the order, and an attempt in progress is for its key and working on it. */
  predicate Kept(s: State, url: Url, key: Key) {
    && s.journal.Some? && s.journal.value.url == url && s.journal.value.key == key
    && UsesKey(s.phase, key) && !s.phase.Placing? && !s.phase.Recording?
    && (AtOrder(s.phase) ==> s.phase.url == url)
    && !s.phase.Clearing?
  }

  lemma {:induction false} KeptStep(s: State, step: Step, url: Url, key: Key)
    requires AgesInv(s) && Kept(s, url, key) && Outstanding(s, url) && Enabled(s, step) && Fair(s, step)
    requires Outstanding(Apply(s, step), url) && (step.Begin? ==> step.k == key)
    ensures Kept(Apply(s, step), url, key) && !step.Authorize?
  {
  }

  /**
   An order that is paid for and journaled between attempts stays journaled, and no other is
   placed, for as long as it is outstanding and no attempt for another key begins: only that
   loses it.
   */
  lemma {:induction false} OnlyAnotherKeyLosesIt(states: seq<State>, steps: seq<Step>, i: nat, j: nat, url: Url)
    requires IsRun(states, steps) && FairRun(states, steps) && i <= j < |states|
    requires states[i].phase.Idle? && states[i].journal.Some? && states[i].journal.value.url == url
    requires forall m :: i <= m <= j ==> Outstanding(states[m], url)
    requires forall m :: i <= m < j ==> steps[m].Begin? ==> steps[m].k == states[i].journal.value.key
    ensures Kept(states[j], url, states[i].journal.value.key)
    ensures forall m :: i <= m < j ==> !steps[m].Authorize?
  {
    hide Apply, Enabled, Fair, AgesInv, Outstanding;
    if i < j {
      OnlyAnotherKeyLosesIt(states, steps, i, j - 1, url);
      RunKeepsAges(states, steps, j - 1);
      assert states[j] == Apply(states[j - 1], steps[j - 1]);
      KeptStep(states[j - 1], steps[j - 1], url, states[i].journal.value.key);
    }
  }

  /** Among readable journals, exactly a record of another key sends an attempt past an outstanding order. */
  lemma {:induction false} OtherKeyIsTheHole(states: seq<State>, steps: seq<Step>, i: nat, clear: Write)
    requires IsRun(states, steps) && FairRun(states, steps) && i < |states| && states[i].phase.Loading?
    requires states[i].journal.Some? && Outstanding(states[i], states[i].journal.value.url)
    ensures Apply(states[i], LoadJournal(false, clear)).phase.Placing? <==> states[i].phase.k != states[i].journal.value.key
  {
    RunKeepsAges(states, steps, i);
  }

  /**
   And it does lose it: from every state between attempts with an outstanding journaled order,
   an attempt for another key leaves that order outstanding and no longer journaled.
   */
  lemma {:induction false} OtherKeyLosesIt(states: seq<State>, steps: seq<Step>, k: Key, url: Url, expires: int)
    returns (states': seq<State>, steps': seq<Step>)
    requires IsRun(states, steps) && FairRun(states, steps)
    requires var s := Last(states);
             && s.phase.Idle? && s.journal.Some? && s.journal.value.key != k && url !in s.orders
             && Outstanding(s, s.journal.value.url)
    ensures IsRun(states', steps') && states <= states' && steps + [Begin(k)] <= steps'
    ensures var paid, t := Last(states).journal.value.url, Last(states');
            t.phase.Idle? && Outstanding(t, paid) && t.journal == Some(Record(url, k, Last(states).now)) && url != paid
  {
    RunKeepsAges(states, steps, |steps|);
    states', steps' := Grow(states, steps, Begin(k));
    states', steps' := Grow(states', steps', LoadJournal(false, Ok));
    states', steps' := Grow(states', steps', Authorize(url, expires, false));
    states', steps' := Grow(states', steps', Journal(Ok));
    states', steps' := Grow(states', steps', Stop);
  }

  /* ---------------------------------------- what the side conditions keep out */

  /**
   A client error to the lookup, a rate limit included, counts as "no such order": it is
   the one answer for an outstanding order that leads to another.
   */
  lemma {:induction false} RejectionIsTheHole(s: State, answer: Lookup, clear: Write)
    requires s.phase.Looking? && Outstanding(s, s.phase.url)
    ensures Apply(s, GetOrder(answer, clear)).phase.Placing? <==> answer.Rejected?
  {
  }

  /** A first attempt, for key 1, interrupted after the CA accepted its finalization. */
  lemma {:induction false} PaidAndInterrupted() returns (states: seq<State>, steps: seq<Step>)
    ensures IsRun(states, steps)
    ensures Last(states) == State(0, map[0 := Order(Processing, Some(1), 0, 100, false)], Some(Record(0, 1, 0)), Idle)
  {
    states, steps := [State(0, map[], None, Idle)], [];
    states, steps := Grow(states, steps, Begin(1));
    states, steps := Grow(states, steps, LoadJournal(false, Ok));
    states, steps := Grow(states, steps, Authorize(0, 100, false));
    states, steps := Grow(states, steps, Journal(Ok));
    states, steps := Grow(states, steps, Finalize(true));
  }

  /** If the CA answers the lookup with a rate limit, a second order is paid for. */
  lemma {:induction false} RateLimitedLookupPaysTwice() returns (states: seq<State>, steps: seq<Step>)
    ensures IsRun(states, steps)
    ensures Outstanding(Last(states), 0) && Outstanding(Last(states), 1)
  {
    states, steps := PaidAndInterrupted();
    states, steps := Grow(states, steps, Begin(1));
    states, steps := Grow(states, steps, LoadJournal(false, Ok));
    states, steps := Grow(states, steps, GetOrder(Rejected, Ok));
    states, steps := Grow(states, steps, Authorize(1, 100, false));
    states, steps := Grow(states, steps, Journal(Ok));
    states, steps := Grow(states, steps, Finalize(false));
  }

  /**
   With two keys the one slot is not left for its owner: an attempt for key 2 overwrites the
   record of the order paid for with key 1, and the next attempt for key 1 orders again.
   */
  lemma {:induction false} SecondKeyLosesThePaidOrder() returns (states: seq<State>, steps: seq<Step>)
    ensures IsRun(states, steps)
    ensures Outstanding(Last(states), 0) && Last(states).orders[0].key == Some(1) && Last(states).phase == Placing(1)
  {
    states, steps := PaidAndInterrupted();
    states, steps := Grow(states, steps, Begin(2));
    states, steps := Grow(states, steps, LoadJournal(false, Ok));
    states, steps := Grow(states, steps, Authorize(1, 100, false));
    states, steps := Grow(states, steps, Journal(Ok));
    states, steps := Grow(states, steps, Stop);
    states, steps := Grow(states, steps, Begin(1));
    states, steps := Grow(states, steps, LoadJournal(false, Ok));
  }

  /**
   A journal write that is lost does not stop the attempt: interrupted after the CA accepted
   its finalization, the order is paid for and nobody knows of it.
   */
  lemma {:induction false} LostRecordPaysTwice() returns (states: seq<State>, steps: seq<Step>)
    ensures IsRun(states, steps)
    ensures Outstanding(Last(states), 0) && Last(states).journal.None? && Last(states).phase == Placing(1)
  {
    states, steps := [State(0, map[], None, Idle)], [];
    states, steps := Grow(states, steps, Begin(1));
    states, steps := Grow(states, steps, LoadJournal(false, Ok));
    states, steps := Grow(states, steps, Authorize(0, 100, false));
    states, steps := Grow(states, steps, Journal(Lost));
    states, steps := Grow(states, steps, Finalize(true));
    states, steps := Grow(states, steps, Begin(1));
    states, steps := Grow(states, steps, LoadJournal(false, Ok));
  }

  /** An order the CA gives up is not waited for: the next attempt for its key is free to place another. */
  lemma {:induction false} InvalidatedIsReplaced(states: seq<State>, steps: seq<Step>)
    returns (states': seq<State>, steps': seq<Step>)
    requires IsRun(states, steps)
    requires var s := Last(states);
             && s.phase.Idle? && s.journal.Some? && !TooOld(s, s.journal.value)
             && s.journal.value.url in s.orders && !s.orders[s.journal.value.url].status.Valid? && !s.orders[s.journal.value.url].status.Invalid?
    ensures IsRun(states', steps') && states <= states' && steps + [Invalidate(Last(states).journal.value.url)] <= steps'
    ensures Last(states').phase == Placing(Last(states).journal.value.key) && Last(states').journal.None?
  {
    var rec := Last(states).journal.value;
    states', steps' := Grow(states, steps, Invalidate(rec.url));
    states', steps' := Grow(states', steps', Begin(rec.key));
    states', steps' := Grow(states', steps', LoadJournal(false, Ok));
    states', steps' := Grow(states', steps', GetOrder(Told, Ok));
  }

  /** An order being recorded is new: no record names it and nothing was collected for it. */
  predicate RecordsNew(s: State) {
    s.phase.Recording? ==>
      && s.phase.url in s.orders && !s.orders[s.phase.url].collected
      && (s.journal.Some? ==> s.journal.value.url != s.phase.url)
  }

  lemma {:induction false} RecordsNewStep(s: State, step: Step)
    requires KeysInv(s) && RecordsNew(s) && Enabled(s, step)
    ensures RecordsNew(Apply(s, step))
  {
  }

  lemma {:induction false} RunRecordsNew(states: seq<State>, steps: seq<Step>, i: nat)
    requires IsRun(states, steps) && i < |states|
    ensures RecordsNew(states[i])
  {
    if i > 0 {
      hide Apply, Enabled, KeysInv, RecordsNew;
      RunRecordsNew(states, steps, i - 1);
      RunKeepsKeys(states, steps, i - 1);
      assert states[i] == Apply(states[i - 1], steps[i - 1]);
      RecordsNewStep(states[i - 1], steps[i - 1]);
    }
  }

  /**
   Exactly a lost record does that: in every run, an order being recorded that is still open,
   and then accepted by the CA in an answer that is lost, is outstanding, and is not journaled
   if and only if its record was lost.
   */
  lemma {:induction false} LostRecordIsTheHole(states: seq<State>, steps: seq<Step>, i: nat, w: Write)
    requires IsRun(states, steps) && i < |states| && states[i].phase.Recording?
    requires var s, url := states[i], states[i].phase.url;
             url in s.orders && s.orders[url].status.Open? && s.now <= s.orders[url].expires
    ensures Enabled(states[i], Journal(w)) && Enabled(Apply(states[i], Journal(w)), Finalize(true))
    ensures var url, t := states[i].phase.url, Apply(Apply(states[i], Journal(w)), Finalize(true));
            && t.phase.Idle? && Outstanding(t, url)
            && (!(t.journal.Some? && t.journal.value.url == url) <==> w.Lost?)
  {
    RunRecordsNew(states, steps, i);
  }

  /**
   The age limit never forgets an order that can still be collected if and only if the CA
   expires the order within that limit of its record.
   */
  lemma {:induction false} AgeLimitIsSafeIff(s: State)
    requires s.journal.Some? && Outstanding(s, s.journal.value.url)
    ensures (forall t :: s.now <= t && Outstanding(s.(now := t), s.journal.value.url) ==> !TooOld(s.(now := t), s.journal.value))
            <==> s.orders[s.journal.value.url].expires <= s.journal.value.createdAt + ORDER_MAX_AGE
  {
    var rec := s.journal.value;
    var last := s.orders[rec.url].expires;
    if last > rec.createdAt + ORDER_MAX_AGE {
      assert Outstanding(s.(now := last), rec.url) && TooOld(s.(now := last), rec);
    }
  }
}
