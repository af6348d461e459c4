/**
 Issue, resumeOrder and complete as the code runs them (issuer.go), over the order machine.
 Every call to storage or to the CA is a step of the machine and is appended to the run, so
 an attempt interrupted anywhere is a prefix of it.
 */
module IssuerMethods {
  import opened Common
  import opened OrderJournal

  /** What resumeOrder answers: an error, no order worth collecting, or the order. */
  datatype Resumed = Unknown | NoOrder | Resume(url: Url)

  datatype Result = Failed | Issued(url: Url)

  /** What one attempt meets; `signs` is the CA signing before the wait for the order ends. */
  datatype Faults = Faults(
    loadFails: bool, lookup: Lookup, clear: Write,
    url: Url, expires: int, authorizeLost: bool, record: Write,
    finalizeLost: bool, signs: bool, waitFails: bool, fetchFails: bool, done: Write)

  /** The journal names an order for the key, young enough to ask about. */
  predicate Names(s: State, k: Key) {
    s.journal.Some? && !TooOld(s, s.journal.value) && s.journal.value.key == k
  }

  /** The CA answered for the journaled order, and it is not worth collecting. */
  predicate Gone(s: State, f: Faults)
    requires s.journal.Some? && s.journal.value.url in s.orders
  {
    f.lookup.Rejected? || (f.lookup.Told? && Spent(s, s.orders[s.journal.value.url]))
  }

  /** Where an order in the given state is picked up. */
  function PickUp(o: Order, k: Key, url: Url): Phase {
    if o.status.Valid? then Fetching(k, url) else if o.status.Processing? then Waiting(k, url) else Completing(k, url)
  }

  /** From the given status on, nothing the attempt meets keeps it from the chain. */
  predicate Completes(status: Status, f: Faults) {
    match status
    case Valid => !f.fetchFails
    case Processing => f.signs && !f.waitFails && !f.fetchFails
    case Open => !f.finalizeLost && f.signs && !f.waitFails && !f.fetchFails
    case Invalid => false
  }

  /** No call of the attempt fails, and the CA signs what it accepts. */
  predicate Faultless(f: Faults) {
    && !f.loadFails && f.lookup.Told? && !f.authorizeLost
    && !f.finalizeLost && f.signs && !f.waitFails && !f.fetchFails
  }

  /** An outstanding order is the journaled one, and worth asking about. */
  lemma {:induction false} OutstandingIsNamed(states: seq<State>, steps: seq<Step>, k: Key, url: Url)
    requires IsRun(states, steps) && OrderlyRun(states, steps, k) && Outstanding(Last(states), url)
    ensures Names(Last(states), k) && Last(states).journal.value.url == url
    ensures url in Last(states).orders && !Spent(Last(states), Last(states).orders[url])
  {
    hide Apply, Enabled, KeysInv;
    RunKeepsPaid(states, steps, k, |steps|);
  }

  class Issuer {
    var s: State
    ghost var states: seq<State>
    ghost var steps: seq<Step>

    ghost predicate Run()
      reads this
    {
      IsRun(states, steps) && Last(states) == s
    }

    method Do(step: Step)
      requires Run() && Enabled(s, step)
      modifies this
      ensures Run() && s == Apply(old(s), step)
    {
      hide Apply, Enabled;
      s := Apply(s, step);
      ghost var states', steps' := Grow(states, steps, step);
      states, steps := states', steps';
    }

    /** What every state the issuer is in satisfies. */
    ghost method Known()
      requires Run()
      ensures KeysInv(s)
    {
      hide Apply, Enabled, KeysInv;
      RunKeepsKeys(states, steps, |steps|);
    }

    /** resumeOrder: an order is found, found not to exist, or the attempt ends. */
    method ResumeOrder(f: Faults) returns (r: Resumed)
      requires Run() && s.phase.Loading?
      modifies this
      ensures Run() && KeysInv(old(s))
      ensures var o := old(s);
              && (r.Unknown? <==> f.loadFails || (Names(o, o.phase.k) && f.lookup.Unavailable?))
              && (r.Resume? <==> !f.loadFails && Names(o, o.phase.k) && !f.lookup.Unavailable? && !Gone(o, f))
              && (r.Resume? ==> r.url == o.journal.value.url)
              && s == o.(journal := if r.NoOrder? && !f.clear.Lost? && o.journal.Some?
                                       && (TooOld(o, o.journal.value) || o.journal.value.key == o.phase.k)
                                    then None else o.journal,
                         phase := match r
                                  case Unknown => Idle
                                  case NoOrder => Placing(o.phase.k)
                                  case Resume(url) => PickUp(o.orders[url], o.phase.k, url))
    {
      Known();
      var k := s.phase.k;
      Do(LoadJournal(f.loadFails, f.clear));
      if s.phase.Looking? {
        var url := s.phase.url;
        Do(GetOrder(f.lookup, f.clear));
        r := if s.phase.Idle? then Unknown else if s.phase.Placing? then NoOrder else Resume(url);
      } else {
        r := if f.loadFails then Unknown else NoOrder;
      }
    }

    /** The attempt is at an order, in the phase that goes with its status. */
    ghost predicate AtStatus()
      reads this
    {
      && (s.phase.Completing? || s.phase.Waiting? || s.phase.Fetching?) && s.phase.url in s.orders
      && s.phase == PickUp(s.orders[s.phase.url], s.phase.k, s.phase.url)
    }

    /** The wait for the order, and the download. */
    method AwaitAndFetch(f: Faults) returns (ok: bool)
      requires Run() && AtStatus() && !s.phase.Completing?
      modifies this
      ensures Run() && KeysInv(old(s)) && (ok <==> Completes(old(s).orders[old(s).phase.url].status, f))
      ensures s.now == old(s).now && s.journal == old(s).journal && s.orders.Keys == old(s).orders.Keys
      ensures forall url :: url in s.orders ==> s.orders[url].expires == old(s).orders[url].expires
      ensures s.phase == if ok then Clearing(old(s).phase.k, old(s).phase.url) else Idle
      ensures ok ==> s.orders[s.phase.url].collected && s.orders[s.phase.url].key == Some(s.phase.k)
    {
      Known();
      if s.phase.Waiting? {
        if f.signs {
          Do(Sign(s.phase.url));
        }
        Do(AwaitOrder(f.waitFails));
        if s.phase.Idle? {
          return false;
        }
      }
      Do(Fetch(f.fetchFails));
      return !f.fetchFails;
    }

    /** complete: from whatever state the order is in to a downloaded chain for the key. */
    method Complete(f: Faults) returns (ok: bool)
      requires Run() && AtStatus()
      modifies this
      ensures Run() && KeysInv(old(s)) && (ok <==> Completes(old(s).orders[old(s).phase.url].status, f))
      ensures s.now == old(s).now && s.journal == old(s).journal && s.orders.Keys == old(s).orders.Keys
      ensures forall url :: url in s.orders ==> s.orders[url].expires == old(s).orders[url].expires
      ensures s.phase == if ok then Clearing(old(s).phase.k, old(s).phase.url) else Idle
      ensures ok ==> s.orders[s.phase.url].collected && s.orders[s.phase.url].key == Some(s.phase.k)
    {
      Known();
      if s.phase.Completing? {
        Do(Finalize(f.finalizeLost));
        if s.phase.Idle? {
          return false;
        }
      }
      ok := AwaitAndFetch(f);
    }

    /** Placing an order and journaling it, before anything the CA can charge for. */
    method Place(f: Faults) returns (ok: bool)
      requires Run() && s.phase.Placing? && f.url !in s.orders
      modifies this
      ensures Run() && (ok <==> !f.authorizeLost)
      ensures var o := old(s);
              s == o.(orders := o.orders[f.url := Order(Open, None, o.now, f.expires, false)],
                      journal := if ok && !f.record.Lost? then Some(Record(f.url, o.phase.k, o.now)) else o.journal,
                      phase := if ok then Completing(o.phase.k, f.url) else Idle)
    {
      Do(Authorize(f.url, f.expires, f.authorizeLost));
      if f.authorizeLost {
        return false;
      }
      Do(Journal(f.record));
      return true;
    }

    /**
     Issue. The attempt places at most one order, and exactly when the journal could be read
     and names none, or names one the CA calls gone. The chain it returns is for the key it
     was given. An attempt that meets no fault returns one, whatever became of the journaled
     order, and none of an order past its time. After any orderly past, an order that was paid for and not collected is
     collected, and no other placed.
     */
    method Issue(k: Key, f: Faults) returns (r: Result)
      requires Run() && s.phase.Idle? && f.url !in s.orders
      modifies this
      ensures Run() && KeysInv(old(s)) && s.phase.Idle? && s.now == old(s).now
      ensures f.url in s.orders <==> !f.loadFails && (Names(old(s), k) ==> Gone(old(s), f))
      ensures s.orders.Keys == old(s).orders.Keys + (if f.url in s.orders then {f.url} else {})
      ensures r.Issued? <==>
                if f.url in s.orders then !f.authorizeLost && Completes(Open, f)
                else !f.loadFails && f.lookup.Told? && Completes(old(s).orders[old(s).journal.value.url].status, f)
      ensures r.Issued? ==> r.url == if f.url in s.orders then f.url else old(s).journal.value.url
      ensures r.Issued? ==> s.orders[r.url].collected && s.orders[r.url].key == Some(k)
      ensures r.Issued? && !f.done.Lost? ==> s.journal.None?
      ensures Faultless(f) ==> r.Issued?
      ensures r.Issued? && f.expires >= s.now ==> s.orders[r.url].expires >= s.now
      ensures forall url :: OrderlyRun(old(states), old(steps), k) && Outstanding(old(s), url) && !f.lookup.Rejected? ==>
                && f.url !in s.orders
                && (!f.loadFails && f.lookup.Told? && Completes(old(s).orders[url].status, f) ==> r == Issued(url))
    {
      hide OrderlyRun, IsRun;
      forall url | OrderlyRun(states, steps, k) && Outstanding(s, url)
        ensures Names(s, k) && s.journal.value.url == url && !Spent(s, s.orders[url])
      {
        OutstandingIsNamed(states, steps, k, url);
      }
      Known();
      Do(Begin(k));
      var resumed := ResumeOrder(f);
      if resumed.Unknown? {
        return Failed;
      }
      var url := f.url;
      if resumed.NoOrder? {
        var placed := Place(f);
        if !placed {
          return Failed;
        }
      } else {
        url := resumed.url;
      }
      var ok := Complete(f);
      if !ok {
        return Failed;
      }
      Do(ClearJournal(f.done));
      return Issued(url);
    }
  }
}
