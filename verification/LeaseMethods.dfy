/**
 Taking and releasing the lease as the code runs it (lease.go), over the state of the whole
 cluster. Between any two storage calls of one agent the others may take any number of
 steps. Every call is a step of the machine and is appended to the run.
 */
module LeaseMethods {
  import opened Common
  import opened IssuanceLease
  import opened IssuanceRuns

  class Cluster {
    var s: State
    ghost var states: seq<State>
    ghost var steps: seq<Step>

    ghost predicate Valid()
      reads this
    {
      IsRun(states, steps) && states[|states| - 1] == s
    }

    /** The state agent `a` finds itself in. */
    ghost predicate AgentAt(a: Agent, p: Phase)
      reads this
    {
      At(s, a) && s.agents[a] == p
    }

    /** The steps since `from` that are `a`'s are among the given ones. */
    ghost predicate Takes(a: Agent, from: nat, own: set<Step>)
      reads this
    {
      forall i :: from <= i < |steps| && Acts(steps[i]) && steps[i].a == a ==> steps[i] in own
    }

    method Advance(step: Step, s': State)
      requires Valid() && Next(s, step, s')
      modifies this
      ensures Valid() && s == s' && steps == old(steps) + [step]
    {
      ghost var states', steps' := Extend(states, steps, step, s');
      states, steps, s := states', steps', s';
    }

    /**
     Whatever the other agents, the clock and the operator do between two calls of `a`:
     some continuation of the run that leaves `a` where it is.
     */
    method Others(a: Agent, p: Phase)
      requires Valid() && AgentAt(a, p)
      modifies this
      ensures Valid() && AgentAt(a, p) && s.owner == old(s).owner && old(s).now <= s.now
      ensures old(steps) <= steps && Takes(a, |old(steps)|, {})
    {
      var later: int := *;
      if later > s.now {
        Advance(Tick(later), s.(now := later));
      }
    }

    /** tryCreate: creates the record once, or goes on to inspect the one that is there. */
    method TryCreate(a: Agent, exp: int, unforced: bool, w: Write) returns (ok: bool)
      requires Valid() && AgentAt(a, Creating(exp, unforced))
      modifies this
      ensures Valid() && steps == old(steps) + [Create(a, w)] && At(s, a) && s.owner == old(s).owner
      ensures ok <==> old(s).slot.NoLease? && w.Ok?
      ensures ok ==> s.agents[a].Holding? && s.slot == Lease(LeaseRecord(s.owner[a], exp), s.agents[a].tag)
      ensures !ok ==> s.agents[a] == Statting(exp, unforced)
    {
      var failed := Statting(exp, unforced);
      Advance(Create(a, w), if s.slot.NoLease? then Acquired(s, a, exp, unforced, w, failed) else Set(s, a, failed));
      return s.agents[a].Holding?;
    }

    /** takeOver: replaces the record only if it is still the one the ETag was read from. */
    method TakeOverLease(a: Agent, exp: int, unforced: bool, etag: nat, w: Write) returns (ok: bool)
      requires Valid() && AgentAt(a, TakingOver(exp, unforced, etag))
      modifies this
      ensures Valid() && steps == old(steps) + [TakeOver(a, w)] && At(s, a) && s.owner == old(s).owner
      ensures ok <==> old(s).slot.Lease? && old(s).slot.etag == etag && w.Ok?
      ensures ok ==> s.agents[a].Holding? && s.slot == Lease(LeaseRecord(s.owner[a], exp), s.agents[a].tag)
      ensures ok ==> old(s).slot.rec.expiresAt <= old(s).now
      ensures !ok ==> s.agents[a].Idle?
    {
      RunKeepsTags(states, steps, |states| - 1);
      ok := s.slot.Lease? && s.slot.etag == etag && w.Ok?;
      Advance(TakeOver(a, w),
              if s.slot.Lease? && s.slot.etag == etag then Acquired(s, a, exp, unforced, w, Idle) else Set(s, a, Idle));
    }

    /**
     acquire: create once; failing that stat, then read, then take over what has expired.
     Whatever the others do meanwhile, the agent makes these calls and no others, and is done
     with them: success means storage holds its record, failure that it is without the lease.
     */
    method Acquire(a: Agent, unforced: bool, create: Write, stat: Read, read: Read, take: Write) returns (ok: bool)
      requires Valid() && AgentAt(a, Idle) && (unforced ==> s.live.Some?)
      modifies this
      ensures Valid() && old(steps) + [Start(a, unforced)] <= steps && At(s, a)
      ensures Takes(a, |old(steps)|,
                    {Start(a, unforced), Create(a, create), Stat(a, stat), ReadLease(a, read), TakeOver(a, take)})
      ensures ok <==> Holds(s.agents[a])
      ensures ok ==> s.slot.Lease? && s.slot.rec.owner == s.owner[a] && s.slot.etag == s.agents[a].tag
                     && s.slot.rec.expiresAt == old(s).now + LEASE_TTL
      ensures !ok ==> s.agents[a].Idle?
    {
      var exp := s.now + LEASE_TTL;
      Advance(Start(a, unforced), Set(s, a, Creating(exp, unforced)));
      Others(a, Creating(exp, unforced));
      ok := TryCreate(a, exp, unforced, create);
      if ok {
        return;
      }
      Others(a, Statting(exp, unforced));
      var expired, etag := Inspect(a, exp, unforced, stat, read);
      if !expired {
        return false;
      }
      Others(a, TakingOver(exp, unforced, etag));
      ok := TakeOverLease(a, exp, unforced, etag, take);
    }

    /** The record that is there: the ETag first, then its contents; expired, as far as one look can tell. */
    method Inspect(a: Agent, exp: int, unforced: bool, stat: Read, read: Read) returns (expired: bool, etag: nat)
      requires Valid() && AgentAt(a, Statting(exp, unforced))
      modifies this
      ensures Valid() && old(steps) + [Stat(a, stat)] <= steps && s.owner == old(s).owner && At(s, a)
      ensures Takes(a, |old(steps)|, {Stat(a, stat), ReadLease(a, read)})
      ensures s.agents[a] == if expired then TakingOver(exp, unforced, etag) else Idle
      ensures expired ==> s.slot.Lease? && s.slot.rec.expiresAt <= s.now
      ensures expired ==> old(s).slot.Lease? && etag == old(s).slot.etag
    {
      if stat.ReadFailed? || s.slot.NoLease? {
        Advance(Stat(a, stat), Set(s, a, Idle));
        return false, 0;
      }
      etag := s.slot.etag;
      Advance(Stat(a, stat), Set(s, a, Reading(exp, unforced, etag)));
      Others(a, Reading(exp, unforced, etag));
      expired := read.ReadOk? && s.slot.Lease? && s.slot.rec.expiresAt <= s.now;
      Advance(ReadLease(a, read), Set(s, a, if expired then TakingOver(exp, unforced, etag) else Idle));
    }

    /**
     releaser: leaves a record that names another owner, and deletes otherwise, whatever is
     there by then.
     */
    method Release(a: Agent, exp: int, tag: nat, read: Read, remove: Write)
      requires Valid() && AgentAt(a, Holding(exp, tag, Done))
      modifies this
      ensures Valid() && old(steps) + [ReleaseRead(a, read)] <= steps && At(s, a) && s.agents[a].Idle?
      ensures Takes(a, |old(steps)|, {ReleaseRead(a, read), Delete(a, remove)})
      ensures if read.ReadOk? && old(s).slot.Lease? && old(s).slot.rec.owner != old(s).owner[a]
              then s.slot == old(s).slot
              else steps[|steps| - 1] == Delete(a, remove) && (!remove.Lost? ==> s.slot.NoLease?)
    {
      if read.ReadOk? && s.slot.Lease? && s.slot.rec.owner != s.owner[a] {
        Advance(ReleaseRead(a, read), Set(s, a, Idle));
        return;
      }
      Advance(ReleaseRead(a, read), Set(s, a, Deleting(exp, tag)));
      Others(a, Deleting(exp, tag));
      Advance(Delete(a, remove), Set(if remove.Lost? then s else s.(slot := NoLease), a, Idle));
    }
  }
}
