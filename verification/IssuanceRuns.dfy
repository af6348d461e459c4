/**
 Runs of the lease and issuance machine: what an attempt that meets no fault does, and what
 goes wrong when a holder is not timely.
 */
module IssuanceRuns {
  import opened Common
  import opened IssuanceLease

  /** A run grows by any step the last state allows. */
  lemma Extend(states: seq<State>, steps: seq<Step>, step: Step, s': State)
    returns (states': seq<State>, steps': seq<Step>)
    requires IsRun(states, steps) && Next(states[|states| - 1], step, s')
    ensures IsRun(states', steps') && states' == states + [s'] && steps' == steps + [step]
    ensures states'[|states'| - 1] == s'
  {
    states', steps' := states + [s'], steps + [step];
    forall i | 0 <= i < |steps'| ensures Next(states'[i], steps'[i], states'[i + 1]) {
      if i < |steps| {
        assert states'[i] == states[i] && steps'[i] == steps[i] && states'[i + 1] == states[i + 1];
      }
    }
  }

  /** Agent `a` starts and its create-once wins. */
  lemma RunCreate(states: seq<State>, steps: seq<Step>, a: Agent, unforced: bool)
    returns (states': seq<State>, steps': seq<Step>)
    requires IsRun(states, steps)
    requires var s := states[|states| - 1];
             At(s, a) && s.agents[a].Idle? && s.slot.NoLease? && s.live.Some?
    ensures IsRun(states', steps') && states <= states' && steps <= steps'
    ensures forall i :: |steps| <= i < |steps'| ==> !steps'[i].Order?
    ensures var s, s' := states[|states| - 1], states'[|states'| - 1];
            && s'.slot == Lease(LeaseRecord(s.owner[a], s.now + LEASE_TTL), s.nextTag)
            && s' == s.(slot := s'.slot, nextTag := s.nextTag + 1, agents := s'.agents)
            && s'.agents == s.agents[a := Holding(s.now + LEASE_TTL, s.nextTag, if unforced then Recheck else Busy)]
  {
    var s := states[|states| - 1];
    var s1 := Set(s, a, Creating(s.now + LEASE_TTL, unforced));
    states', steps' := Extend(states, steps, Start(a, unforced), s1);
    var s2 := Acquired(s1, a, s.now + LEASE_TTL, unforced, Ok, Idle);
    states', steps' := Extend(states', steps', Create(a, Ok), s2);
  }

  /** Agent `a` starts, finds an expired record and takes it over. */
  lemma RunTakeOver(states: seq<State>, steps: seq<Step>, a: Agent)
    returns (states': seq<State>, steps': seq<Step>)
    requires IsRun(states, steps)
    requires var s := states[|states| - 1];
             At(s, a) && s.agents[a].Idle? && s.slot.Lease? && s.slot.rec.expiresAt <= s.now && s.live.Some?
    ensures IsRun(states', steps') && states <= states' && steps <= steps'
    ensures forall i :: |steps| <= i < |steps'| ==> !steps'[i].Order?
    ensures var s, s' := states[|states| - 1], states'[|states'| - 1];
            && s'.slot == Lease(LeaseRecord(s.owner[a], s.now + LEASE_TTL), s.nextTag)
            && s' == s.(slot := s'.slot, nextTag := s.nextTag + 1, agents := s'.agents)
            && s'.agents == s.agents[a := Holding(s.now + LEASE_TTL, s.nextTag, Recheck)]
  {
    var s := states[|states| - 1];
    var e := s.now + LEASE_TTL;
    var s1 := Set(s, a, Creating(e, true));
    states', steps' := Extend(states, steps, Start(a, true), s1);
    var s2 := Set(s1, a, Statting(e, true));
    states', steps' := Extend(states', steps', Create(a, Ok), s2);
    var s3 := Set(s2, a, Reading(e, true, s.slot.etag));
    states', steps' := Extend(states', steps', Stat(a, ReadOk), s3);
    var s4 := Set(s3, a, TakingOver(e, true, s.slot.etag));
    states', steps' := Extend(states', steps', ReadLease(a, ReadOk), s4);
    var s5 := Acquired(s4, a, e, true, Ok, Idle);
    states', steps' := Extend(states', steps', TakeOver(a, Ok), s5);
  }

  /** A holder works until its lease expires, and only then reads it to release it. */
  lemma RunOverstay(states: seq<State>, steps: seq<Step>, a: Agent)
    returns (states': seq<State>, steps': seq<Step>)
    requires IsRun(states, steps)
    requires var s := states[|states| - 1];
             && WorkIs(s, a, Busy) && s.now <= s.agents[a].exp
             && s.slot.Lease? && s.slot.rec.owner == s.owner[a]
    ensures IsRun(states', steps')
    ensures var s, s' := states[|states| - 1], states'[|states'| - 1];
            && s' == s.(now := s.agents[a].exp, agents := s'.agents)
            && s'.agents == s.agents[a := Deleting(s.agents[a].exp, s.agents[a].tag)]
  {
    var s := states[|states| - 1];
    var s1 := SetWork(s, a, Done);
    states', steps' := Extend(states, steps, Finish(a), s1);
    var s2 := s1.(now := s.agents[a].exp);
    states', steps' := Extend(states', steps', Tick(s.agents[a].exp), s2);
    var s3 := Set(s2, a, Deleting(s.agents[a].exp, s.agents[a].tag));
    states', steps' := Extend(states', steps', ReleaseRead(a, ReadOk), s3);
  }

  /** The delete of a late release removes whatever record is there. */
  lemma RunDelete(states: seq<State>, steps: seq<Step>, a: Agent)
    returns (states': seq<State>, steps': seq<Step>)
    requires IsRun(states, steps)
    requires At(states[|states| - 1], a) && states[|states| - 1].agents[a].Deleting?
    ensures IsRun(states', steps')
    ensures states'[|states'| - 1] == Set(states[|states| - 1].(slot := NoLease), a, Idle)
  {
    states', steps' := Extend(states, steps, Delete(a, Ok), Set(states[|states| - 1].(slot := NoLease), a, Idle));
  }

  /**
   Timeliness is exactly what exclusion needs. Whenever a run reaches a holder whose record
   has expired, any agent that is idle there can take the lease as well: some continuation
   has both holding.
   */
  lemma {:induction false} OverstayingSharesTheLease(states: seq<State>, steps: seq<Step>, a: Agent, b: Agent)
    returns (states': seq<State>, steps': seq<Step>)
    requires IsRun(states, steps)
    requires var s := states[|states| - 1];
             && At(s, a) && Holds(s.agents[a]) && At(s, b) && s.agents[b].Idle? && s.live.Some?
             && s.slot.Lease? && s.slot.etag == s.agents[a].tag && s.slot.rec.expiresAt <= s.now
    ensures IsRun(states', steps') && states <= states' && steps <= steps'
    ensures var last := states'[|states'| - 1];
            a != b && a in last.agents && b in last.agents && Holds(last.agents[a]) && Holds(last.agents[b])
  {
    states', steps' := RunTakeOver(states, steps, b);
  }

  /**
   Without timeliness the exclusion fails: agent 0 outlives its lease, reads its own
   record on release, agent 1 takes the expired record over, the delete then removes
   agent 1's record, and agent 2 creates another. Two agents hold unexpired leases.
   */
  lemma LateReleaseBreaksExclusion() returns (states: seq<State>, steps: seq<Step>)
    ensures IsRun(states, steps)
    ensures var last := states[|states| - 1];
            && 1 in last.agents && 2 in last.agents
            && Holds(last.agents[1]) && Holds(last.agents[2])
            && last.now < last.agents[1].exp && last.now < last.agents[2].exp
  {
    var s0 := State(0, 86400, map[0 := 10, 1 := 11, 2 := 12], map[0 := Idle, 1 := Idle, 2 := Idle],
                    NoLease, 0, Some(7), NoChain);
    states, steps := [s0], [];
    states, steps := RunCreate(states, steps, 0, false);
    states, steps := RunOverstay(states, steps, 0);
    states, steps := RunTakeOver(states, steps, 1);
    states, steps := RunDelete(states, steps, 0);
    states, steps := RunCreate(states, steps, 2, true);
  }

  /* -------------------------------------------------- an attempt without faults */

  /** An unforced attempt orders: nothing is stored, or a chain of the live key in its window. */
  predicate Due(s: State) {
    s.chain.NoChain? || (InWindow(s, s.chain) && s.live == Some(s.chain.spki))
  }

  /** The re-check under the lease, both reads succeeding. */
  lemma {:induction false} RunRecheck(states: seq<State>, steps: seq<Step>, a: Agent)
    returns (states': seq<State>, steps': seq<Step>)
    requires IsRun(states, steps) && WorkIs(Last(states), a, Recheck) && Last(states).live.Some?
    ensures IsRun(states', steps') && states <= states' && steps <= steps'
    ensures var s, s' := Last(states), Last(states');
            && At(s', a) && s'.agents[a].Holding? && s' == SetWork(s, a, s'.agents[a].work)
            && (if Due(s) then s'.agents[a].work.Ordering? else s'.agents[a].work.Done?)
    ensures forall k :: |steps| <= k < |steps'| ==> !steps'[k].Order?
  {
    var s := Last(states);
    if s.chain.NoChain? {
      states', steps' := Extend(states, steps, LoadChain(a, ReadOk), SetWork(s, a, Ordering(NoChain, None)));
    } else {
      var s1 := SetWork(s, a, Recheck2(s.chain));
      states', steps' := Extend(states, steps, LoadChain(a, ReadOk), s1);
      var w := if Decide(Found(s.chain), Found(s.live.value), s.now, s.renewBefore).PlaceOrder? then Ordering(s.chain, s.live) else Done;
      states', steps' := Extend(states', steps', LoadKey(a, ReadOk), SetWork(s1, a, w));
      assert s1.agents[a := s1.agents[a].(work := w)] == s.agents[a := s.agents[a].(work := w)];
    }
  }

  /** The k-th state of storing c: what the first k writes left. */
  function Stored(s: State, a: Agent, c: IssuanceLease.Stored, ws: seq<Write>, k: nat, work: Work): State
    requires At(s, a) && s.agents[a].Holding? && k <= |ws|
  {
    SetWork(if LandedBy(ws, k) then s.(chain := c) else s, a, work)
  }

  /** Storing: retried until a write succeeds, the attempts run out or the attempt gives up. */
  lemma {:induction false} RunStore(states: seq<State>, steps: seq<Step>, a: Agent, c: IssuanceLease.Stored, ws: seq<Write>, k: nat)
    returns (states': seq<State>, steps': seq<Step>)
    requires IsRun(states, steps) && WorkIs(Last(states), a, Storing(c, 1)) && Attempts(ws, PERSIST_ATTEMPTS) && k < |ws|
    ensures IsRun(states', steps') && states <= states' && steps <= steps'
    ensures Last(states') == Stored(Last(states), a, c, ws, k, Storing(c, k + 1))
    ensures forall i :: |steps| <= i < |steps'| ==> !steps'[i].Order?
  {
    var s := Last(states);
    if k == 0 {
      states', steps' := states, steps;
      assert s.agents[a := s.agents[a].(work := Storing(c, 1))] == s.agents;
    } else {
      states', steps' := RunStore(states, steps, a, c, ws, k - 1);
      StoreOnce(s, a, c, ws, k - 1, false);
      states', steps' := Extend(states', steps', Persist(a, ws[k - 1], false), Stored(s, a, c, ws, k, Storing(c, k + 1)));
    }
  }

  /** The attempt ends with its k-th write, because that succeeds, is the last allowed, or it gives up. */
  lemma {:induction false} StoreOnce(s: State, a: Agent, c: IssuanceLease.Stored, ws: seq<Write>, k: nat, giveUp: bool)
    requires At(s, a) && s.agents[a].Holding? && Attempts(ws, PERSIST_ATTEMPTS) && k < |ws|
    requires giveUp <==> k == |ws| - 1 && !ws[k].Ok? && |ws| < PERSIST_ATTEMPTS
    ensures Next(Stored(s, a, c, ws, k, Storing(c, k + 1)), Persist(a, ws[k], giveUp),
                 Stored(s, a, c, ws, k + 1, if k == |ws| - 1 then Done else Storing(c, k + 2)))
  {
    var t := Stored(s, a, c, ws, k, Storing(c, k + 1));
    var w := if k == |ws| - 1 then Done else Storing(c, k + 2);
    assert LandedBy(ws, k + 1) <==> LandedBy(ws, k) || !ws[k].Lost?;
    assert t.agents[a := t.agents[a].(work := w)] == s.agents[a := s.agents[a].(work := w)];
    assert IssueStep(t, Persist(a, ws[k], giveUp), Stored(s, a, c, ws, k + 1, w));
  }

  lemma {:induction false} RunStoreAll(states: seq<State>, steps: seq<Step>, a: Agent, c: IssuanceLease.Stored, ws: seq<Write>)
    returns (states': seq<State>, steps': seq<Step>)
    requires IsRun(states, steps) && WorkIs(Last(states), a, Storing(c, 1)) && Attempts(ws, PERSIST_ATTEMPTS)
    ensures IsRun(states', steps') && states <= states' && steps <= steps'
    ensures Last(states') == Stored(Last(states), a, c, ws, |ws|, Done)
    ensures forall i :: |steps| <= i < |steps'| ==> !steps'[i].Order?
  {
    var s, last := Last(states), |ws| - 1;
    var giveUp := !ws[last].Ok? && |ws| < PERSIST_ATTEMPTS;
    states', steps' := RunStore(states, steps, a, c, ws, last);
    StoreOnce(s, a, c, ws, last, giveUp);
    states', steps' := Extend(states', steps', Persist(a, ws[last], giveUp), Stored(s, a, c, ws, |ws|, Done));
  }

  /** Two failed writes do not lose the chain; the third attempt is the last. */
  lemma {:induction false} ThirdWriteStores(states: seq<State>, steps: seq<Step>, a: Agent, c: IssuanceLease.Stored)
    returns (states': seq<State>, steps': seq<Step>)
    requires IsRun(states, steps) && WorkIs(Last(states), a, Storing(c, 1))
    ensures IsRun(states', steps') && states <= states' && Last(states').chain == c && WorkIs(Last(states'), a, Done)
    ensures !Attempts([Lost, Lost, Lost, Ok], PERSIST_ATTEMPTS)
  {
    var ws := [Lost, Lost, Ok];
    assert ws[2].Ok? && LandedBy(ws, 3);
    states', steps' := RunStoreAll(states, steps, a, c, ws);
  }

  /** Releasing one's own lease. */
  lemma {:induction false} RunRelease(states: seq<State>, steps: seq<Step>, a: Agent)
    returns (states': seq<State>, steps': seq<Step>)
    requires IsRun(states, steps) && WorkIs(Last(states), a, Done)
    requires Last(states).slot.Lease? && Last(states).slot.rec.owner == Last(states).owner[a]
    ensures IsRun(states', steps') && states <= states' && steps <= steps'
    ensures Last(states') == Set(Last(states).(slot := NoLease), a, Idle)
    ensures forall i :: |steps| <= i < |steps'| ==> !steps'[i].Order?
  {
    var s := Last(states);
    var s1 := Set(s, a, Deleting(s.agents[a].exp, s.agents[a].tag));
    states', steps' := Extend(states, steps, ReleaseRead(a, ReadOk), s1);
    assert s1.agents[a := Idle] == s.agents[a := Idle];
    states', steps' := Extend(states', steps', Delete(a, Ok), Set(s.(slot := NoLease), a, Idle));
  }

  /** Taking a lease that is free or expired. */
  lemma {:induction false} RunTake(states: seq<State>, steps: seq<Step>, a: Agent)
    returns (states': seq<State>, steps': seq<Step>)
    requires IsRun(states, steps)
    requires var s := Last(states);
             At(s, a) && s.agents[a].Idle? && s.live.Some? && (s.slot.Lease? ==> s.slot.rec.expiresAt <= s.now)
    ensures IsRun(states', steps') && states <= states' && steps <= steps'
    ensures var s, s' := Last(states), Last(states');
            && s'.slot == Lease(LeaseRecord(s.owner[a], s.now + LEASE_TTL), s.nextTag)
            && s' == s.(slot := s'.slot, nextTag := s.nextTag + 1, agents := s'.agents)
            && s'.agents == s.agents[a := Holding(s.now + LEASE_TTL, s.nextTag, Recheck)]
    ensures forall i :: |steps| <= i < |steps'| ==> !steps'[i].Order?
  {
    if Last(states).slot.NoLease? {
      states', steps' := RunCreate(states, steps, a, true);
    } else {
      states', steps' := RunTakeOver(states, steps, a);
    }
  }

  /**
   A due certificate is renewed. From every state in which the lease is free or expired, an
   unforced attempt whose reads succeed places an order exactly when one is due, stores what
   comes back as its writes allow, and gives the lease back.
   */
  lemma {:induction false} AttemptIssues(states: seq<State>, steps: seq<Step>, a: Agent, c: IssuanceLease.Stored, ws: seq<Write>)
    returns (states': seq<State>, steps': seq<Step>)
    requires IsRun(states, steps) && c.Chain? && Attempts(ws, PERSIST_ATTEMPTS)
    requires var s := Last(states);
             At(s, a) && s.agents[a].Idle? && s.live.Some? && (s.slot.Lease? ==> s.slot.rec.expiresAt <= s.now)
    ensures IsRun(states', steps') && states <= states' && steps <= steps'
    ensures var s, s' := Last(states), Last(states');
            && s'.slot.NoLease? && s'.agents == s.agents && s'.now == s.now
            && s'.chain == if Due(s) && Landed(ws) then c else s.chain
    ensures (exists k :: |steps| <= k < |steps'| && steps'[k].Order?) <==> Due(Last(states))
  {
    hide Next;
    var s := Last(states);
    states', steps' := RunTake(states, steps, a);
    var s1 := Last(states');
    states', steps' := RunRecheck(states', steps', a);
    if Due(s) {
      states', steps' := RunOrder(states', steps', a, c);
      states', steps' := RunStoreAll(states', steps', a, c, ws);
    }
    states', steps' := RunRelease(states', steps', a);
    assert s1.agents[a := Idle] == s.agents;
  }

  /** The call to the CA. */
  lemma {:induction false} RunOrder(states: seq<State>, steps: seq<Step>, a: Agent, c: IssuanceLease.Stored)
    returns (states': seq<State>, steps': seq<Step>)
    requires IsRun(states, steps) && OrderingAt(Last(states), a) && c.Chain?
    ensures IsRun(states', steps') && states <= states' && steps' == steps + [Order(a, c)]
    ensures Last(states') == SetWork(Last(states), a, Storing(c, 1))
  {
    states', steps' := Extend(states, steps, Order(a, c), SetWork(Last(states), a, Storing(c, 1)));
  }

  /* -------------------------------------- what ends the protection of a fresh chain */

  /** An agent can take the lease and start an unforced attempt. */
  predicate Ready(s: State, a: Agent) {
    At(s, a) && s.agents[a].Idle? && s.live.Some? && (s.slot.Lease? ==> s.slot.rec.expiresAt <= s.now)
  }

  /** Some step from k on is an order. */
  ghost predicate OrdersFrom(steps: seq<Step>, k: nat) {
    exists i :: k <= i < |steps| && steps[i].Order?
  }

  /** A removal does: from every state an attempt can start in, a removed chain is ordered again, however fresh it was. */
  lemma {:induction false} RemovedIsReordered(states: seq<State>, steps: seq<Step>, a: Agent, c: IssuanceLease.Stored)
    returns (states': seq<State>, steps': seq<Step>)
    requires IsRun(states, steps) && Ready(Last(states), a) && c.Chain?
    ensures IsRun(states', steps') && states <= states' && steps + [RemoveChain] <= steps'
    ensures OrdersFrom(steps', |steps|) && Last(states').chain == c
  {
    states', steps' := Extend(states, steps, RemoveChain, Last(states).(chain := NoChain));
    assert [Ok][0] == Ok && LandedBy([Ok], 1);
    states', steps' := AttemptIssues(states', steps', a, c, [Ok]);
  }

  /** An older chain that another lease user writes does too, once it is in its window. */
  lemma {:induction false} OlderWriteIsReordered(states: seq<State>, steps: seq<Step>, b: Agent, a: Agent, older: IssuanceLease.Stored, c: IssuanceLease.Stored)
    returns (states': seq<State>, steps': seq<Step>)
    requires IsRun(states, steps) && c.Chain?
    requires var s := Last(states);
             && WorkIs(s, b, Busy) && s.slot.Lease? && s.slot.rec.owner == s.owner[b]
             && At(s, a) && s.agents[a].Idle? && s.live.Some? && older.Chain? && older.spki == s.live.value && InWindow(s, older)
    ensures IsRun(states', steps') && states <= states' && steps + [BusyWrite(b, older)] <= steps'
    ensures OrdersFrom(steps', |steps|) && Last(states').chain == c
  {
    var s := Last(states);
    var s1 := s.(chain := older);
    states', steps' := Extend(states, steps, BusyWrite(b, older), s1);
    states', steps' := Extend(states', steps', Finish(b), SetWork(s1, b, Done));
    states', steps' := RunRelease(states', steps', b);
    assert [Ok][0] == Ok && LandedBy([Ok], 1);
    states', steps' := AttemptIssues(states', steps', a, c, [Ok]);
  }

  /** And a chain in its window is not ordered over once another key is live. */
  lemma {:induction false} ForeignIsNotReordered(states: seq<State>, steps: seq<Step>, a: Agent, k: Key, c: IssuanceLease.Stored)
    returns (states': seq<State>, steps': seq<Step>)
    requires IsRun(states, steps) && Ready(Last(states), a) && c.Chain?
    requires Last(states).chain.Chain? && Last(states).chain.spki != k
    ensures IsRun(states', steps') && states <= states' && steps + [Promote(k)] <= steps'
    ensures !OrdersFrom(steps', |steps|) && Last(states').chain == Last(states).chain && Last(states').slot.NoLease?
  {
    states', steps' := Extend(states, steps, Promote(k), Last(states).(live := Some(k)));
    states', steps' := AttemptIssues(states', steps', a, c, [Ok]);
  }
}
