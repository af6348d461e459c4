/**
 The issuance lease (lease.go) and the decision to order under it (manager.go),
 as a state machine over any number of agents. An agent is one goroutine that may
 take the lease of one domain; several agents may share a node id, as a domain and
 its companion do. Every storage call is one step, so agents interleave between any
 two of them, a write may fail with or without having landed, a read may fail, and
 an agent may crash anywhere.
 */
module IssuanceLease {
  import opened Common

  type Agent = nat
  type NodeId = nat
  type Key = nat

  /** issueLeaseTTL, in seconds. */
  const LEASE_TTL: int := 300
  /** issueTimeout, which also bounds flushes and activations, and the time a release has. */
  const ISSUE_TIMEOUT: int := 120
  const RELEASE_TIMEOUT: int := 10

  /** The record at locks/issue/<domain>. */
  datatype LeaseRecord = LeaseRecord(owner: NodeId, expiresAt: int)

  datatype Slot = NoLease | Lease(rec: LeaseRecord, etag: nat)

  /** The object at certs/<domain>: none, a chain, or bytes that are not a chain. */
  datatype Stored = NoChain | Chain(spki: Key, notAfter: int) | Garbage

  /**
   What a lease holder does. `Recheck` is about to read the chain, `Recheck2` has
   read it and is about to read the live key, `Ordering` has decided to call the CA
   on what it saw, `Storing` has a chain from the CA. `Busy` is any other lease user: a forced
   renewal, a flush, an activation.
   */
  datatype Work =
    | Recheck
    | Recheck2(seen: Stored)
    | Ordering(saw: Stored, under: Option<Key>)
    | Storing(issued: Stored, attempt: nat)
    | Busy
    | Done

  datatype Phase =
    | Idle
    | Creating(exp: int, unforced: bool)
    | Statting(exp: int, unforced: bool)
    | Reading(exp: int, unforced: bool, etag: nat)
    | TakingOver(exp: int, unforced: bool, etag: nat)
    | Holding(exp: int, tag: nat, work: Work)
    | Deleting(exp: int, tag: nat)

  datatype State = State(
    now: int,
    renewBefore: nat,
    owner: map<Agent, NodeId>,
    agents: map<Agent, Phase>,
    slot: Slot,
    nextTag: nat,
    live: Option<Key>,
    chain: Stored)

  datatype Read = ReadOk | ReadFailed

  datatype Step =
    | Tick(to: int)
    | RemoveChain
    | Promote(k: Key)
    | Crash(a: Agent)
    | Start(a: Agent, unforced: bool)
    | Create(a: Agent, w: Write)
    | Stat(a: Agent, r: Read)
    | ReadLease(a: Agent, r: Read)
    | TakeOver(a: Agent, w: Write)
    | LoadChain(a: Agent, r: Read)
    | LoadKey(a: Agent, r: Read)
    | Order(a: Agent, result: Stored)
    | OrderFails(a: Agent)
    | Persist(a: Agent, w: Write, giveUp: bool)
    | BusyWrite(a: Agent, c: Stored)
    | Finish(a: Agent)
    | ReleaseRead(a: Agent, r: Read)
    | Delete(a: Agent, w: Write)

  predicate Holds(p: Phase) {
    p.Holding? || p.Deleting?
  }

  predicate InWindow(s: State, c: Stored) {
    c.Chain? && c.notAfter - s.now <= s.renewBefore
  }

  function Set(s: State, a: Agent, p: Phase): State {
    s.(agents := s.agents[a := p])
  }

  /** The slot after a write of `a`'s record that reached storage. */
  function Written(s: State, a: Agent, exp: int): State
    requires a in s.owner
  {
    s.(slot := Lease(LeaseRecord(s.owner[a], exp), s.nextTag), nextTag := s.nextTag + 1)
  }

  /**
   Taking the lease, for a create-once or a take-over whose precondition held; a write that
   reports failure leaves the agent at `failed`.
   */
  function Acquired(s: State, a: Agent, exp: int, unforced: bool, w: Write, failed: Phase): State
    requires a in s.owner
  {
    match w
    case Lost => Set(s, a, failed)
    case LandedButFailed => Set(Written(s, a, exp), a, failed)
    case Ok => Set(Written(s, a, exp), a, Holding(exp, s.nextTag, if unforced then Recheck else Busy))
  }

  predicate At(s: State, a: Agent) {
    a in s.agents && a in s.owner
  }

  predicate WorkIs(s: State, a: Agent, w: Work) {
    At(s, a) && s.agents[a].Holding? && s.agents[a].work == w
  }

  predicate OrderingAt(s: State, a: Agent) {
    At(s, a) && s.agents[a].Holding? && s.agents[a].work.Ordering?
  }

  function SetWork(s: State, a: Agent, w: Work): State
    requires At(s, a) && s.agents[a].Holding?
  {
    Set(s, a, s.agents[a].(work := w))
  }

  /** acquire, lease.go: create once; failing that, for whatever reason, stat, read and take over what has expired. */
  ghost predicate AcquireStep(s: State, step: Step, s': State) {
    match step
    case Start(a, unforced) =>
      && At(s, a) && s.agents[a].Idle? && (unforced ==> s.live.Some?)
      && s' == Set(s, a, Creating(s.now + LEASE_TTL, unforced))
    case Create(a, w) =>
      && At(s, a) && s.agents[a].Creating?
      && var p := s.agents[a];
      && var failed := Statting(p.exp, p.unforced);
      s' == if s.slot.NoLease? then Acquired(s, a, p.exp, p.unforced, w, failed) else Set(s, a, failed)
    case Stat(a, r) =>
      && At(s, a) && s.agents[a].Statting?
      && var p := s.agents[a];
      s' == Set(s, a, if r.ReadFailed? || s.slot.NoLease? then Idle else Reading(p.exp, p.unforced, s.slot.etag))
    case ReadLease(a, r) =>
      && At(s, a) && s.agents[a].Reading?
      && var p := s.agents[a];
      s' == Set(s, a,
                if r.ReadFailed? || s.slot.NoLease? || s.now < s.slot.rec.expiresAt then Idle
                else TakingOver(p.exp, p.unforced, p.etag))
    case TakeOver(a, w) =>
      && At(s, a) && s.agents[a].TakingOver?
      && var p := s.agents[a];
      s' == if s.slot.Lease? && s.slot.etag == p.etag then Acquired(s, a, p.exp, p.unforced, w, Idle) else Set(s, a, Idle)
    case _ => false
  }

  datatype Decision = PlaceOrder | KeepStored | Refuse

  /**
   Refresh and the switch on its result in issueWithKey, without force: the chain is
   read, then the key, and a "missing" from either read is absentFromStorage.
   */
  function Decide(chain: Answer<Stored>, key: Answer<Key>, now: int, renewBefore: nat): (d: Decision)
    requires chain.Found? ==> !chain.value.NoChain?
    ensures d.PlaceOrder? <==>
            || chain.Missing?
            || (chain.Found? && key.Missing?)
            || (chain.Found? && key.Found? && chain.value.Chain? && chain.value.spki == key.value
                && chain.value.notAfter - now <= renewBefore)
    ensures d.KeepStored? <==>
            && chain.Found? && key.Found? && chain.value.Chain? && chain.value.spki == key.value
            && chain.value.notAfter - now > renewBefore
  {
    match chain
    case Missing => PlaceOrder
    case Unreadable => Refuse
    case Found(c) =>
      match key
      case Missing => PlaceOrder
      case Unreadable => Refuse
      case Found(k) =>
        if !c.Chain? || c.spki != k then Refuse
        else if c.notAfter - now > renewBefore then KeepStored
        else PlaceOrder
  }

  /** The re-check under the lease, the order and the chain write, manager.go. */
  ghost predicate IssueStep(s: State, step: Step, s': State) {
    match step
    case LoadChain(a, r) =>
      && WorkIs(s, a, Recheck)
      && s' == SetWork(s, a,
                       if r.ReadFailed? then Done
                       else if s.chain.NoChain? then Ordering(NoChain, None)
                       else Recheck2(s.chain))
    case LoadKey(a, r) =>
      && At(s, a) && s.agents[a].Holding? && s.agents[a].work.Recheck2? && !s.agents[a].work.seen.NoChain?
      && var c := s.agents[a].work.seen;
      && var key := if r.ReadFailed? then Unreadable else if s.live.None? then Missing else Found(s.live.value);
      s' == SetWork(s, a,
                    if Decide(Found(c), key, s.now, s.renewBefore).PlaceOrder? then Ordering(c, s.live) else Done)
    case Order(a, result) =>
      OrderingAt(s, a) && result.Chain? && s' == SetWork(s, a, Storing(result, 1))
    case OrderFails(a) =>
      OrderingAt(s, a) && s' == SetWork(s, a, Done)
    case Persist(a, w, giveUp) =>
      && At(s, a) && s.agents[a].Holding? && s.agents[a].work.Storing?
      && var k := s.agents[a].work;
      && var s1 := if w.Lost? then s else s.(chain := k.issued);
      s' == SetWork(s1, a, if w.Ok? || giveUp || k.attempt >= PERSIST_ATTEMPTS then Done else k.(attempt := k.attempt + 1))
    case BusyWrite(a, c) =>
      WorkIs(s, a, Busy) && s' == s.(chain := c)
    case Finish(a) =>
      WorkIs(s, a, Busy) && s' == SetWork(s, a, Done)
    case _ => false
  }

  /** releaser, lease.go: leave a peer's record alone, otherwise delete. */
  ghost predicate ReleaseStep(s: State, step: Step, s': State) {
    match step
    case ReleaseRead(a, r) =>
      && WorkIs(s, a, Done)
      && var p := s.agents[a];
      s' == Set(s, a,
                if r.ReadOk? && s.slot.Lease? && s.slot.rec.owner != s.owner[a] then Idle
                else Deleting(p.exp, p.tag))
    case Delete(a, w) =>
      && At(s, a) && s.agents[a].Deleting?
      && s' == Set(if w.Lost? then s else s.(slot := NoLease), a, Idle)
    case _ => false
  }

  /** Time, an operator's delete of the chain, a key promotion, a crash. */
  ghost predicate EnvironmentStep(s: State, step: Step, s': State) {
    match step
    case Tick(to) => s.now <= to && s' == s.(now := to)
    case RemoveChain => s' == s.(chain := NoChain)
    case Promote(k) => s' == s.(live := Some(k))
    case Crash(a) => At(s, a) && s' == Set(s, a, Idle)
    case _ => false
  }

  ghost predicate Next(s: State, step: Step, s': State) {
    || AcquireStep(s, step, s')
    || IssueStep(s, step, s')
    || ReleaseStep(s, step, s')
    || EnvironmentStep(s, step, s')
  }

  ghost predicate Init(s: State) {
    && (forall a :: a in s.agents ==> s.agents[a].Idle?)
    && (s.slot.Lease? ==> s.slot.etag < s.nextTag)
  }

  ghost predicate IsRun(states: seq<State>, steps: seq<Step>) {
    && |states| == |steps| + 1
    && Init(states[0])
    && forall i :: 0 <= i < |steps| ==> Next(states[i], steps[i], states[i + 1])
  }

  /** The side condition of lease.go: a live holder finishes before its lease expires. */
  ghost predicate Timely(s: State) {
    forall a :: a in s.agents && Holds(s.agents[a]) ==> s.now < s.agents[a].exp
  }

  ghost predicate TimelyRun(states: seq<State>) {
    forall i :: 0 <= i < |states| ==> Timely(states[i])
  }

  /* ------------------------------------------------------------------ ETags */

  function TagOf(p: Phase): int {
    match p
    case Reading(_, _, e) => e
    case TakingOver(_, _, e) => e
    case Holding(_, t, _) => t
    case Deleting(_, t) => t
    case _ => -1
  }

  /** Every ETag anybody remembers is older than the next one to be handed out. */
  ghost predicate TagsInv(s: State) {
    && (s.slot.Lease? ==> s.slot.etag < s.nextTag)
    && (forall a :: a in s.agents ==> TagOf(s.agents[a]) < s.nextTag)
  }

  /** A record that is still the one the ETag names has been seen expired. */
  ghost predicate ExpiredInv(s: State) {
    forall a :: a in s.agents && s.agents[a].TakingOver? && s.slot.Lease? && s.slot.etag == s.agents[a].etag
      ==> s.slot.rec.expiresAt <= s.now
  }

  predicate Acts(step: Step) {
    !step.Tick? && !step.RemoveChain? && !step.Promote?
  }

  /** A step moves its own agent and no other. */
  lemma {:induction false} OthersStay(s: State, step: Step, s': State, b: Agent)
    requires Next(s, step, s') && b in s'.agents && !(Acts(step) && step.a == b)
    ensures b in s.agents && s'.agents[b] == s.agents[b]
  {
  }

  /** The record changes by a delete, or by a write under the next ETag: a create or a take-over. */
  lemma {:induction false} SlotFrom(s: State, step: Step, s': State)
    requires Next(s, step, s')
    ensures s.now <= s'.now && s'.renewBefore == s.renewBefore && s'.owner == s.owner
    ensures || (s'.slot == s.slot && s'.nextTag == s.nextTag)
            || (step.Delete? && s'.slot.NoLease? && s'.nextTag == s.nextTag)
            || (&& s'.slot.Lease? && s'.slot.etag == s.nextTag && s'.nextTag == s.nextTag + 1
                && ((step.Create? && s.slot.NoLease?) || (step.TakeOver? && TakesOver(s, step.a))))
  {
  }

  predicate TakesOver(s: State, a: Agent) {
    a in s.agents && s.agents[a].TakingOver? && s.slot.Lease? && s.slot.etag == s.agents[a].etag
  }

  predicate Expires(s: State, a: Agent) {
    a in s.agents && s.agents[a].Reading? && s.slot.Lease? && s.slot.rec.expiresAt <= s.now
  }

  /** The ETag an agent remembers is the one it had, the current one, or its own new one. */
  lemma {:induction false} TagFrom(s: State, step: Step, s': State)
    requires Next(s, step, s') && Acts(step)
    ensures step.a in s.agents && step.a in s'.agents
    ensures var t := TagOf(s'.agents[step.a]);
            || t == -1 || t == TagOf(s.agents[step.a])
            || (s.slot.Lease? && t == s.slot.etag)
            || (t == s.nextTag && s'.nextTag == s.nextTag + 1)
    ensures s'.agents[step.a].TakingOver? ==> Expires(s, step.a) && s'.slot == s.slot
  {
  }

  lemma {:induction false} TagsStep(s: State, step: Step, s': State)
    requires TagsInv(s) && ExpiredInv(s) && Next(s, step, s')
    ensures TagsInv(s') && ExpiredInv(s') && s.nextTag <= s'.nextTag
    ensures s'.slot.Lease? ==> s'.slot == s.slot || s'.slot.etag == s.nextTag < s'.nextTag
  {
    hide Next;
    SlotFrom(s, step, s');
    if Acts(step) {
      TagFrom(s, step, s');
    }
    forall b | b in s'.agents
      ensures TagOf(s'.agents[b]) < s'.nextTag
      ensures s'.agents[b].TakingOver? && s'.slot.Lease? && s'.slot.etag == s'.agents[b].etag ==> s'.slot.rec.expiresAt <= s'.now
    {
      if !(Acts(step) && step.a == b) {
        OthersStay(s, step, s', b);
      }
    }
  }

  /** The first replacement of a record retires its ETag for good. */
  lemma {:induction false} TagNeverReturns(states: seq<State>, steps: seq<Step>, i: nat, j: nat, tag: nat)
    requires IsRun(states, steps) && i <= j < |states|
    requires TagsInv(states[i]) && ExpiredInv(states[i])
    requires tag < states[i].nextTag && !(states[i].slot.Lease? && states[i].slot.etag == tag)
    ensures !(states[j].slot.Lease? && states[j].slot.etag == tag)
    ensures TagsInv(states[j]) && ExpiredInv(states[j]) && tag < states[j].nextTag
  {
    if i < j {
      TagNeverReturns(states, steps, i, j - 1, tag);
      TagsStep(states[j - 1], steps[j - 1], states[j]);
    }
  }

  lemma {:induction false} RunKeepsTags(states: seq<State>, steps: seq<Step>, n: nat)
    requires IsRun(states, steps) && n < |states|
    ensures TagsInv(states[n]) && ExpiredInv(states[n])
  {
    if n > 0 {
      RunKeepsTags(states, steps, n - 1);
      TagsStep(states[n - 1], steps[n - 1], states[n]);
    }
  }

  /** Step `i` replaces the record that carried `tag`. */
  ghost predicate TookOver(states: seq<State>, steps: seq<Step>, i: nat, tag: nat) {
    && i < |steps| < |states| && steps[i].TakeOver? && !steps[i].w.Lost?
    && At(states[i], steps[i].a) && states[i].agents[steps[i].a].TakingOver?
    && states[i].agents[steps[i].a].etag == tag
    && states[i].slot.Lease? && states[i].slot.etag == tag
  }

  /**
   Of all the agents that read one expired record, at most one take-over of it lands,
   in every run and whoever is late.
   */
  lemma OneTakeOverPerRecord(states: seq<State>, steps: seq<Step>, i: nat, j: nat, tag: nat)
    requires IsRun(states, steps)
    requires TookOver(states, steps, i, tag) && TookOver(states, steps, j, tag)
    ensures i == j
  {
    if i != j {
      var first, second := if i < j then i else j, if i < j then j else i;
      RunKeepsTags(states, steps, first);
      TagsStep(states[first], steps[first], states[first + 1]);
      assert Next(states[first], steps[first], states[first + 1]);
      TagNeverReturns(states, steps, first + 1, second, tag);
    }
  }

  /** A take-over only ever replaces a record that has expired. */
  lemma TakeOverReplacesExpired(states: seq<State>, steps: seq<Step>, i: nat, tag: nat)
    requires IsRun(states, steps) && TookOver(states, steps, i, tag)
    ensures states[i].slot.rec.expiresAt <= states[i].now
  {
    RunKeepsTags(states, steps, i);
  }

  /* -------------------------------------------------------------- exclusion */

  /** Who holds the lease wrote the record storage now has. */
  ghost predicate HolderInv(s: State) {
    && (forall a :: a in s.agents && Holds(s.agents[a]) ==>
          && s.slot.Lease? && s.slot.etag == s.agents[a].tag
          && s.slot.rec.expiresAt == s.agents[a].exp)
    && AtMostOneHolder(s)
  }

  ghost predicate AtMostOneHolder(s: State) {
    forall a, b :: a in s.agents && b in s.agents && Holds(s.agents[a]) && Holds(s.agents[b]) ==> a == b
  }

  /** An agent comes to hold the lease by writing its record, and keeps it until it lets go. */
  lemma {:induction false} HolderFrom(s: State, step: Step, s': State)
    requires Next(s, step, s') && Acts(step) && step.a in s'.agents && Holds(s'.agents[step.a])
    ensures step.a in s.agents
    ensures || (&& Holds(s.agents[step.a]) && s'.slot == s.slot
                && s'.agents[step.a].tag == s.agents[step.a].tag && s'.agents[step.a].exp == s.agents[step.a].exp)
            || (&& s'.slot.Lease? && s'.slot.etag == s'.agents[step.a].tag && s'.slot.rec.expiresAt == s'.agents[step.a].exp
                && ((step.Create? && s.slot.NoLease?) || (step.TakeOver? && TakesOver(s, step.a))))
  {
  }

  /** A record is replaced or deleted only when no other agent holds the lease. */
  lemma {:induction false} NoOtherHolder(s: State, step: Step, s': State, b: Agent)
    requires ExpiredInv(s) && HolderInv(s) && Timely(s) && Next(s, step, s')
    requires s'.slot != s.slot && Acts(step) && b in s.agents && b != step.a
    ensures !Holds(s.agents[b])
  {
    SlotFrom(s, step, s');
    if step.Delete? {
      assert Holds(s.agents[step.a]);
    }
  }

  lemma {:induction false} HolderStep(s: State, step: Step, s': State)
    requires TagsInv(s) && ExpiredInv(s) && HolderInv(s) && Timely(s)
    requires Next(s, step, s')
    ensures HolderInv(s')
  {
    hide Next;
    SlotFrom(s, step, s');
    forall b | b in s'.agents && Holds(s'.agents[b])
      ensures s'.slot.Lease? && s'.slot.etag == s'.agents[b].tag && s'.slot.rec.expiresAt == s'.agents[b].exp
      ensures Acts(step) && step.a in s'.agents && Holds(s'.agents[step.a]) ==> b == step.a
      ensures !(Acts(step) && step.a == b) ==> b in s.agents && Holds(s.agents[b])
    {
      if Acts(step) && step.a in s'.agents && Holds(s'.agents[step.a]) {
        HolderFrom(s, step, s');
      }
      if !(Acts(step) && step.a == b) {
        OthersStay(s, step, s', b);
        if s'.slot != s.slot {
          NoOtherHolder(s, step, s', b);
        }
      }
    }
  }

  lemma {:induction false} RunKeeps(states: seq<State>, steps: seq<Step>, n: nat)
    requires IsRun(states, steps) && TimelyRun(states) && n < |states|
    ensures TagsInv(states[n]) && ExpiredInv(states[n]) && HolderInv(states[n]) && DecisionInv(states[n])
  {
    if n > 0 {
      RunKeeps(states, steps, n - 1);
      TagsStep(states[n - 1], steps[n - 1], states[n]);
      HolderStep(states[n - 1], steps[n - 1], states[n]);
      DecisionStep(states[n - 1], steps[n - 1], states[n]);
    }
  }

  /* --------------------------------------------------------------- decision */

  /** What the re-check saw still stands, or the chain has been removed since. */
  ghost predicate DecisionInv(s: State) {
    && (forall a :: a in s.agents && Unforced(s.agents[a]) ==> s.live.Some?)
    && (forall a :: a in s.agents && s.agents[a].Holding? ==> Justified(s, s.agents[a].work))
  }

  predicate Unforced(p: Phase) {
    match p
    case Creating(_, u) => u
    case Statting(_, u) => u
    case Reading(_, u, _) => u
    case TakingOver(_, u, _) => u
    case Holding(_, _, work) => work.Recheck? || work.Recheck2?
    case _ => false
  }

  predicate Justified(s: State, work: Work) {
    match work
    case Recheck2(seen) => s.chain == seen || s.chain.NoChain?
    case Ordering(saw, under) =>
      && (s.chain == saw || s.chain.NoChain?)
      && (saw.NoChain? || (InWindow(s, saw) && under == Some(saw.spki)))
    case Storing(issued, _) => s.chain == issued || s.chain.NoChain? || InWindow(s, s.chain)
    case _ => true
  }

  /** Only the lease holder writes the chain, so nobody's evidence goes stale. */
  lemma DecisionIssueStep(s: State, step: Step, s': State)
    requires HolderInv(s) && DecisionInv(s) && IssueStep(s, step, s')
    ensures DecisionInv(s')
  {
    forall b | b in s'.agents && s'.agents[b].Holding? ensures Justified(s', s'.agents[b].work) {
      assert Holds(s.agents[step.a]) && Holds(s.agents[b]);
      assert b == step.a && Justified(s, s.agents[b].work);
    }
  }

  /** Outside the issuance itself an agent's work starts over or stays, and no chain is written. */
  lemma {:induction false} OtherWork(s: State, step: Step, s': State, b: Agent)
    requires Next(s, step, s') && !IssueStep(s, step, s') && b in s'.agents
    ensures b in s.agents && s.now <= s'.now && s'.renewBefore == s.renewBefore
    ensures (s'.chain == s.chain || s'.chain.NoChain?) && (s.live.Some? ==> s'.live.Some?)
    ensures Unforced(s'.agents[b]) ==> Unforced(s.agents[b]) || s.live.Some?
    ensures s'.agents[b].Holding? ==>
              || s'.agents[b].work.Recheck? || s'.agents[b].work.Busy?
              || (s.agents[b].Holding? && s'.agents[b].work == s.agents[b].work)
  {
  }

  lemma {:induction false} DecisionOtherStep(s: State, step: Step, s': State)
    requires DecisionInv(s) && Next(s, step, s') && !IssueStep(s, step, s')
    ensures DecisionInv(s')
  {
    hide Next, IssueStep;
    forall b | b in s'.agents
      ensures Unforced(s'.agents[b]) ==> s'.live.Some?
      ensures s'.agents[b].Holding? ==> Justified(s', s'.agents[b].work)
    {
      OtherWork(s, step, s', b);
    }
  }

  lemma DecisionStep(s: State, step: Step, s': State)
    requires HolderInv(s) && DecisionInv(s) && Next(s, step, s')
    ensures DecisionInv(s')
  {
    if IssueStep(s, step, s') {
      DecisionIssueStep(s, step, s');
    } else {
      DecisionOtherStep(s, step, s');
    }
  }

  /* --------------------------------------------------------------- theorems */

  /** In every run whose holders are timely, at most one agent has the lease. */
  lemma LeaseExclusion(states: seq<State>, steps: seq<Step>, n: nat)
    requires IsRun(states, steps) && TimelyRun(states) && n < |states|
    ensures AtMostOneHolder(states[n])
    ensures forall a :: a in states[n].agents && Holds(states[n].agents[a]) ==>
              && states[n].slot.Lease? && states[n].slot.etag == states[n].agents[a].tag
              && states[n].now < states[n].slot.rec.expiresAt
  {
    RunKeeps(states, steps, n);
  }

  /** A release deletes the record its own agent wrote, never a successor's. */
  lemma ReleaseDeletesOwnRecord(states: seq<State>, steps: seq<Step>, i: nat)
    requires IsRun(states, steps) && TimelyRun(states) && i < |steps|
    requires steps[i].Delete?
    ensures At(states[i], steps[i].a) && Holds(states[i].agents[steps[i].a])
    ensures states[i].slot.Lease? && states[i].slot.etag == states[i].agents[steps[i].a].tag
  {
    RunKeeps(states, steps, i);
    assert Next(states[i], steps[i], states[i + 1]);
  }

  /**
   Split-brain single issuance. An unforced order goes to the CA only while storage
   has no chain, or has the very chain the orderer read under the lease, bound to the
   key that was live then and inside the renewal window. A chain with more than
   `renewBefore` left, an unreadable one and one bound to another key are never
   ordered over, and no other agent is ordering or storing at the same time.
   */
  lemma NoDuplicateOrder(states: seq<State>, steps: seq<Step>, i: nat)
    requires IsRun(states, steps) && TimelyRun(states) && i < |steps|
    requires steps[i].Order?
    ensures OrderingAt(states[i], steps[i].a)
    ensures states[i].chain.NoChain? || InWindow(states[i], states[i].chain)
    ensures var w := states[i].agents[steps[i].a].work;
            && (states[i].chain == w.saw || states[i].chain.NoChain?)
            && (w.saw.NoChain? || (w.saw.Chain? && w.under == Some(w.saw.spki)))
    ensures forall b :: b in states[i].agents && b != steps[i].a ==> !Holds(states[i].agents[b])
  {
    RunKeeps(states, steps, i);
    assert Next(states[i], steps[i], states[i + 1]);
    var w := states[i].agents[steps[i].a].work;
    assert Justified(states[i], w);
  }

  /** The step neither removes the stored chain nor puts an older one, or none, in its place. */
  predicate Renews(s: State, step: Step) {
    && !step.RemoveChain?
    && (step.BusyWrite? && s.chain.Chain? ==> step.c.Chain? && step.c.notAfter >= s.chain.notAfter)
  }

  /** A fresh chain outlives any such step, or gives way to a newer one, and is not ordered over. */
  lemma {:induction false} FreshChainStep(s: State, step: Step, s': State)
    requires HolderInv(s) && DecisionInv(s) && Next(s, step, s')
    requires s.chain.Chain? && s.chain.notAfter - s'.now > s'.renewBefore && Renews(s, step)
    ensures s'.chain.Chain? && s'.chain.notAfter >= s.chain.notAfter && !step.Order?
    ensures !step.BusyWrite? ==> s'.chain == s.chain
  {
    if IssueStep(s, step, s') {
      assert Holds(s.agents[step.a]) && Justified(s, s.agents[step.a].work);
    }
  }

  lemma {:induction false} ClockIsMonotone(states: seq<State>, steps: seq<Step>, i: nat, j: nat)
    requires IsRun(states, steps) && i <= j < |states|
    ensures states[i].now <= states[j].now && states[i].renewBefore == states[j].renewBefore
  {
    hide Next;
    if i < j {
      ClockIsMonotone(states, steps, i, j - 1);
      SlotFrom(states[j - 1], steps[j - 1], states[j]);
    }
  }

  /**
   One issuance per renewal window. From the moment a chain is stored until it enters its
   window, and unless it is removed or an older one is written over it, the stored expiry does
   not fall and no agent, whoever believes to lead, places an unforced order. Only another
   lease user, an operator's forced renewal, an activation or a flush, changes what is stored.
   */
  lemma {:induction false} FreshChainIsKept(states: seq<State>, steps: seq<Step>, i: nat, j: nat)
    requires IsRun(states, steps) && TimelyRun(states) && i <= j < |states|
    requires states[i].chain.Chain? && states[i].chain.notAfter - states[j].now > states[j].renewBefore
    requires forall k :: i <= k < j ==> Renews(states[k], steps[k])
    ensures states[j].chain.Chain? && states[j].chain.notAfter >= states[i].chain.notAfter
    ensures forall k :: i <= k < j ==> !steps[k].Order?
    ensures (forall k :: i <= k < j ==> !steps[k].BusyWrite?) ==> states[j].chain == states[i].chain
  {
    hide Next, HolderInv, DecisionInv, Renews;
    if i < j {
      ClockIsMonotone(states, steps, j - 1, j);
      FreshChainIsKept(states, steps, i, j - 1);
      RunKeeps(states, steps, j - 1);
      FreshChainStep(states[j - 1], steps[j - 1], states[j]);
    }
  }

  predicate StoringAt(s: State, a: Agent) {
    At(s, a) && s.agents[a].Holding? && s.agents[a].work.Storing?
  }

  /** A chain to store comes from the agent's own order and from nowhere else. */
  lemma {:induction false} StoringFrom(s: State, step: Step, s': State, a: Agent)
    requires Next(s, step, s') && StoringAt(s', a)
    ensures || (step.Order? && step.a == a && s'.agents[a].work == Storing(step.result, 1))
            || (StoringAt(s, a) && s.agents[a].work.issued == s'.agents[a].work.issued && !step.Order?)
            || (StoringAt(s, a) && s.agents[a].work.issued == s'.agents[a].work.issued && step.a != a && OrderingAt(s, step.a))
  {
  }

  /** While it has one, nobody orders. */
  lemma {:induction false} StoringSince(states: seq<State>, steps: seq<Step>, i: nat, m: nat, a: Agent)
    requires IsRun(states, steps) && TimelyRun(states) && i < m < |states| && StoringAt(states[m], a)
    requires steps[i].Order? && steps[i].a == a
    requires forall k :: i < k < m && steps[k].Order? ==> steps[k].a != a
    ensures states[m].agents[a].work.issued == steps[i].result
    ensures forall k :: i < k < m ==> !steps[k].Order?
  {
    hide Next;
    StoringFrom(states[m - 1], steps[m - 1], states[m], a);
    if m > i + 1 {
      LeaseExclusion(states, steps, m - 1);
      StoringSince(states, steps, i, m - 1, a);
    } else if !(steps[i].Order? && states[m].agents[a].work == Storing(steps[i].result, 1)) {
      LeaseExclusion(states, steps, i);
      NoDuplicateOrder(states, steps, i);
    }
  }

  /** What a write that landed leaves stored. */
  lemma {:induction false} PersistStores(s: State, step: Step, s': State)
    requires Next(s, step, s') && step.Persist? && !step.w.Lost?
    ensures StoringAt(s, step.a) && s'.chain == s.agents[step.a].work.issued && s'.now == s.now && s'.renewBefore == s.renewBefore
  {
  }

  /** An order's result is a chain. */
  lemma {:induction false} OrderedIsAChain(s: State, step: Step, s': State)
    requires Next(s, step, s') && step.Order?
    ensures step.result.Chain?
  {
  }

  /**
   One order per renewal window, whoever believes to lead. From an unforced order whose chain
   reaches storage on, no agent places another until that chain enters its window, unless it
   is removed or an older one is written over it; and until then its expiry stays stored.
   */
  lemma {:induction false} OneOrderPerWindow(states: seq<State>, steps: seq<Step>, i: nat, m: nat, j: nat)
    requires IsRun(states, steps) && TimelyRun(states) && i < m < j < |states|
    requires steps[i].Order? && steps[m].Persist? && steps[m].a == steps[i].a && !steps[m].w.Lost?
    requires forall k :: i < k < m && steps[k].Order? ==> steps[k].a != steps[i].a
    requires steps[i].result.Chain? && steps[i].result.notAfter - states[j].now > states[j].renewBefore
    requires forall k :: m < k < j ==> Renews(states[k], steps[k])
    ensures forall k :: i < k < j ==> !steps[k].Order?
    ensures states[j].chain.Chain? && states[j].chain.notAfter >= steps[i].result.notAfter
  {
    hide Next, TimelyRun, Renews;
    PersistStores(states[m], steps[m], states[m + 1]);
    StoringSince(states, steps, i, m, steps[i].a);
    FreshChainIsKept(states, steps, m + 1, j);
  }

  /* ------------------------------------------- deadlines make holders timely */

  /** Step i is the last before k at which agent a starts. */
  ghost predicate LastStart(steps: seq<Step>, i: nat, k: nat, a: Agent)
    requires k <= |steps|
  {
    && i < k && steps[i].Start? && steps[i].a == a
    && forall m :: i < m < k && steps[m].Start? ==> steps[m].a != a
  }

  /** The lease an agent asks for runs from its start. */
  lemma {:induction false} ExpiryFrom(s: State, step: Step, s': State, a: Agent)
    requires Next(s, step, s') && a in s'.agents && !s'.agents[a].Idle?
    ensures a in s.agents
    ensures || (step.Start? && step.a == a && s'.agents[a].exp == s.now + LEASE_TTL)
            || (!s.agents[a].Idle? && s'.agents[a].exp == s.agents[a].exp && !(step.Start? && step.a == a))
  {
  }

  lemma {:induction false} StartedAt(states: seq<State>, steps: seq<Step>, k: nat, a: Agent) returns (i: nat)
    requires IsRun(states, steps) && k < |states| && a in states[k].agents && !states[k].agents[a].Idle?
    ensures LastStart(steps, i, k, a) && states[k].agents[a].exp == states[i].now + LEASE_TTL
  {
    hide Next;
    i := 0;
    if k > 0 {
      ExpiryFrom(states[k - 1], steps[k - 1], states[k], a);
      if steps[k - 1].Start? && steps[k - 1].a == a {
        i := k - 1;
      } else {
        i := StartedAt(states, steps, k - 1, a);
      }
    }
  }

  /** Every operation under the lease ends with its deadline and the release's. */
  ghost predicate WithinDeadlines(states: seq<State>, steps: seq<Step>) {
    && |states| == |steps| + 1
    && forall i: nat, k: nat, a :: k < |states| && LastStart(steps, i, k, a) && a in states[k].agents && Holds(states[k].agents[a]) ==>
         states[k].now <= states[i].now + ISSUE_TIMEOUT + RELEASE_TIMEOUT
  }

  /** The lease outlives the deadlines, so operations that keep them are timely and exclude each other. */
  lemma {:induction false} DeadlinesExclude(states: seq<State>, steps: seq<Step>, n: nat)
    requires IsRun(states, steps) && WithinDeadlines(states, steps) && n < |states|
    ensures TimelyRun(states) && AtMostOneHolder(states[n])
  {
    hide Next;
    forall k, a | 0 <= k < |states| && a in states[k].agents && Holds(states[k].agents[a])
      ensures states[k].now < states[k].agents[a].exp
    {
      var i := StartedAt(states, steps, k, a);
    }
    LeaseExclusion(states, steps, n);
  }
}
