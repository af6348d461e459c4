/**
 The operations of the ceremony as the code runs them (scheduler.go, keystore.go), over the
 machine's state. Every write is a step of the machine and is appended to the run, so a
 crash between any two writes is a prefix of it.
 */
module CeremonyMethods {
  import opened Common
  import opened Retiring
  import opened Ceremony
  import opened CeremonyRuns

  /** How an activation ends. */
  datatype Result =
    | NotLeader | LeaseHeld | NothingStaged | NotPublished | NoChain | NotPersisted | NotRecorded | LostLeadership | NotPromoted | Activated

  /** What markRetiring meets: its two reads and its write. */
  datatype MarkFaults = MarkFaults(readFails: bool, w: Write)

  /** The outgoing digest is on record afterwards, and reported so. */
  predicate Records(s: State, f: MarkFaults) {
    s.live.Some? && !f.readFails && (f.w.Ok? || MarkedList(s) == s.markers)
  }

  /** The markers storage then has. */
  function MarkersAfter(s: State, f: MarkFaults): seq<Marker> {
    if s.live.None? || f.readFails || f.w.Lost? then s.markers else MarkedList(s)
  }

  /** What an activation meets before its gate. */
  datatype Entry = Entry(leads: bool, leased: bool, loadFails: bool)

  class Domain {
    var s: State
    ghost var states: seq<State>
    ghost var steps: seq<Step>

    ghost predicate Valid()
      reads this
    {
      IsRun(states, steps) && Last(states) == s
    }

    method Do(step: Step)
      requires Valid() && Enabled(s, step)
      modifies this
      ensures Valid() && s == Apply(old(s), step)
    {
      s := Apply(s, step);
      ghost var states', steps' := Grow(states, steps, step);
      states, steps := states', steps';
    }

    /** Store: the chain is written until a write succeeds or the attempts end; else it is held. */
    method StoreChain(ws: seq<Write>) returns (ok: bool)
      requires Valid() && s.op.Putting? && s.op.attempt == 1 && s.op.n in s.nodes && Attempts(ws, PERSIST_ATTEMPTS)
      modifies this
      ensures Valid() && (ok <==> ws[|ws| - 1].Ok?)
      ensures var op := old(s).op;
              s == old(s).(chain := if Landed(ws) then Some(op.c) else old(s).chain,
                           nodes := old(s).nodes[op.n := Node(Some(op.c), old(s).now, if ok then None else Some(op.c))],
                           nextFrom := if !ok && !op.activation && Staged(old(s)) then op.c.notAfter else old(s).nextFrom,
                           op := if ok && op.activation then Marking(op.n, op.c.key) else NoOp)
    {
      for i := 0 to |ws| - 1
        invariant Valid()
        invariant s == old(s).(chain := if LandedBy(ws, i) then Some(old(s).op.c) else old(s).chain,
                               op := old(s).op.(attempt := i + 1))
      {
        Do(PutChain(ws[i], false));
      }
      ok := ws[|ws| - 1].Ok?;
      Do(PutChain(ws[|ws| - 1], |ws| < PERSIST_ATTEMPTS));
    }

    /** markRetiring: on success the outgoing digest is on record; without a live key it fails. */
    method MarkRetiring(f: MarkFaults) returns (ok: bool)
      requires Valid() && s.op.Marking? && s.soak > 0
      modifies this
      ensures Valid() && (ok <==> Records(old(s), f))
      ensures ok ==> s.op.Promoting? && s.op.k == old(s).op.k && s.op.m in s.markers && Some(s.op.m.digest) == old(s).live
      ensures s == old(s).(markers := MarkersAfter(old(s), f), op := if ok then s.op else NoOp)
    {
      if s.live.None? || f.readFails {
        Do(Stop);
        return false;
      }
      ok := f.w.Ok? || MarkedList(s) == s.markers;
      var m := FindMarker(MarkedList(s), s.live.value, s.now, RecordedMarker(s));
      Do(MarkLive(f.w, m));
    }

    /** PromoteNextCertKey: overwrite the live key with the staged one, then remove the staged copy. */
    method PromoteNextCertKey(put: Write, remove: Write) returns (ok: bool)
      requires Valid() && s.op.Promoting? && s.next.Some? && s.live.Some?
      modifies this
      ensures Valid() && (ok <==> put.Ok?)
      ensures var p := if put.Lost? then old(s) else Promoted(old(s), old(s).op.m);
              s == p.(next := if ok && !remove.Lost? then None else old(s).next, op := NoOp)
    {
      Do(PutLive(put));
      if !put.Ok? {
        return false;
      }
      Do(RemoveNext(remove));
      return true;
    }

    /**
     The tail shared by the activation and the reconciliation: record the outgoing digest,
     re-check leadership, promote. Nothing is promoted before the record is made.
     */
    method MarkAndPromote(f: MarkFaults, leader: bool, put: Write, remove: Write) returns (r: Result)
      requires Valid() && s.op.Marking? && s.next == Some(s.op.k) && s.soak > 0
      modifies this
      ensures Valid() && s.op.NoOp? && s.chain == old(s).chain && s.nodes == old(s).nodes
      ensures s.lastIssued == old(s).lastIssued && s.seen == old(s).seen && s.now == old(s).now
      ensures s.markers == MarkersAfter(old(s), f)
      ensures r.NotRecorded? || r.LostLeadership? || r.NotPromoted? || r.Activated?
      ensures r.NotRecorded? <==> !Records(old(s), f)
      ensures r.LostLeadership? <==> !r.NotRecorded? && !leader
      ensures r.Activated? <==> !r.NotRecorded? && leader && put.Ok?
      ensures s.live == if !r.NotRecorded? && leader && !put.Lost? then old(s).next else old(s).live
      ensures s.next == if r.Activated? && !remove.Lost? then None else old(s).next
    {
      var recorded := MarkRetiring(f);
      if !recorded {
        return NotRecorded;
      }
      if !leader {
        Do(Stop);
        return LostLeadership;
      }
      var ok := PromoteNextCertKey(put, remove);
      return if ok then Activated else NotPromoted;
    }

    /**
     ActivateCertificateKey. It succeeds only with the staged key live, its chain stored and
     served, and the outgoing digest on record; a chain already held for the staged key is
     used instead of an order; whatever fails before the promotion, a missing live key included,
     the live key stays and the staged key stays staged, and a chain storage refused is held.
     */
    method ActivateCertificateKey(
      n: NodeId, entry: Entry, force: bool, lookup: Option<bool>, ca: Option<int>, ws: seq<Write>,
      f: MarkFaults, leader: bool, put: Write, remove: Write) returns (r: Result, ordered: bool)
      requires Valid() && s.op.NoOp? && n in s.nodes && s.soak > 0 && Attempts(ws, PERSIST_ATTEMPTS)
      modifies this
      ensures Valid() && s.op.NoOp?
      ensures r.NotLeader? <==> !entry.leads
      ensures r.LeaseHeld? <==> entry.leads && !entry.leased
      ensures r.NothingStaged? <==> entry.leads && entry.leased && (entry.loadFails || old(s).next.None?)
      ensures var entered := entry.leads && entry.leased && !entry.loadFails && old(s).next.Some?;
              var gated := entered && (force || lookup == Some(true));
              var held := gated && HeldFor(old(s), n, old(s).next.value);
              var stores := gated && (held || ca.Some?) && Last(ws).Ok?;
              && (r.NotPublished? <==> entered && !gated)
              && (ordered <==> gated && !held && ca.Some?)
              && (r.NoChain? <==> gated && !held && ca.None?)
              && (r.NotPersisted? <==> gated && (held || ca.Some?) && !Last(ws).Ok?)
              && (r.NotRecorded? <==> stores && !Records(old(s), f))
              && (r.LostLeadership? <==> stores && Records(old(s), f) && !leader)
              && (r.Activated? <==> stores && Records(old(s), f) && leader && put.Ok?)
      ensures r.NotLeader? || r.LeaseHeld? || r.NothingStaged? || r.NotPublished? ==> s == old(s)
      ensures r.NoChain? ==> s == old(s).(seen := s.seen)
      ensures r.NotPersisted? ==>
                && s.live == old(s).live && s.next == old(s).next && HeldFor(s, n, old(s).next.value)
                && s.nodes[n].mem == s.nodes[n].pending && s.markers == old(s).markers
      ensures r.NotRecorded? || r.LostLeadership? || r.NotPromoted? || r.Activated? ==>
                && s.chain.Some? && Some(s.chain.value.key) == old(s).next && n in s.nodes && s.nodes[n] == Node(s.chain, s.now, None)
      ensures r.NotRecorded? || r.LostLeadership? ==> s.live == old(s).live && s.next == old(s).next
      ensures r.NotPromoted? ==> s.live == (if put.Lost? then old(s).live else old(s).next) && s.next == old(s).next
      ensures r.NotPromoted? || r.Activated? || r.LostLeadership? ==>
                exists m :: m in s.markers && Some(m.digest) == old(s).live && !Expired(m, s.now)
      ensures r.Activated? ==> s.live == old(s).next && s.next == if remove.Lost? then old(s).next else None
    {
      hide Apply, Enabled, IsRun;
      ordered := false;
      if !entry.leads {
        return NotLeader, false;
      }
      if !entry.leased {
        return LeaseHeld, false;
      }
      if entry.loadFails || s.next.None? {
        return NothingStaged, false;
      }
      var key := s.next.value;
      var visible := lookup == Some(true);
      if !force && !visible {
        return NotPublished, false;
      }
      var underway := OpenActivation(n, force, visible, ca);
      ordered := underway && !HeldFor(s, n, key);
      if !underway {
        return NoChain, false;
      }
      if s.live.Some? {
        MarkedListsDigest(s.markers, s.live.value, s.now, s.soak);
      }
      r := FinishActivation(ws, f, leader, put, remove);
    }

    /** The second half: store the chain, or hold it and leave the key staged, then promote. */
    method FinishActivation(ws: seq<Write>, f: MarkFaults, leader: bool, put: Write, remove: Write) returns (r: Result)
      requires Valid() && s.op.Putting? && s.op.attempt == 1 && s.op.activation && s.op.n in s.nodes && Attempts(ws, PERSIST_ATTEMPTS)
      requires s.next == Some(s.op.c.key) && s.soak > 0
      modifies this
      ensures Valid() && s.op.NoOp? && s.now == old(s).now
      ensures r.NotPersisted? || r.NotRecorded? || r.LostLeadership? || r.NotPromoted? || r.Activated?
      ensures r.NotPersisted? <==> !ws[|ws| - 1].Ok?
      ensures var n, c := old(s).op.n, old(s).op.c;
              s.nodes == old(s).nodes[n := Node(Some(c), s.now, if r.NotPersisted? then Some(c) else None)]
      ensures !r.NotPersisted? ==> s.chain == Some(old(s).op.c)
      ensures r.NotPersisted? ==> s.markers == old(s).markers
      ensures r.NotPersisted? || r.NotRecorded? || r.LostLeadership? ==> s.live == old(s).live && s.next == old(s).next
      ensures r.NotRecorded? <==> !r.NotPersisted? && !Records(old(s), f)
      ensures r.LostLeadership? <==> !r.NotPersisted? && !r.NotRecorded? && !leader
      ensures r.Activated? <==> !r.NotPersisted? && !r.NotRecorded? && leader && put.Ok?
      ensures r.NotPromoted? ==> s.live == (if put.Lost? then old(s).live else old(s).next) && s.next == old(s).next
      ensures !r.NotPersisted? ==> s.markers == MarkersAfter(old(s), f)
      ensures r.Activated? ==> s.live == old(s).next && s.next == if remove.Lost? then old(s).next else None
    {
      hide Apply, Enabled, IsRun;
      var stored := StoreChain(ws);
      if !stored {
        return NotPersisted;
      }
      assert Landed(ws) by {
        assert ws[|ws| - 1].Ok?;
      }
      assert Records(s, f) == Records(old(s), f) && MarkersAfter(s, f) == MarkersAfter(old(s), f);
      r := MarkAndPromote(f, leader, put, remove);
    }

    /** The first half of an activation: past the gate, with a held chain or an order. */
    method OpenActivation(n: NodeId, force: bool, visible: bool, ca: Option<int>) returns (ok: bool)
      requires Valid() && s.op.NoOp? && n in s.nodes && s.next.Some? && (force || visible)
      modifies this
      ensures Valid() && (ok <==> HeldFor(old(s), n, old(s).next.value) || ca.Some?)
      ensures var key := old(s).next.value;
              var held := HeldFor(old(s), n, key);
              var c := if held then old(s).nodes[n].pending.value else if ca.Some? then Chain(key, ca.value) else Chain(key, 0);
              s == old(s).(seen := if visible then old(s).seen + {key} else old(s).seen,
                           lastIssued := if !held && ca.Some? then ca.value else old(s).lastIssued,
                           op := if ok then Putting(n, c, 1, true) else NoOp)
    {
      var key := s.next.value;
      Do(BeginActivate(n));
      Do(Gate(force, visible));
      if HeldFor(s, n, key) {
        Do(UseHeld);
        return true;
      }
      if ca.None? {
        Do(Stop);
        return false;
      }
      Do(Order(ca.value));
      return true;
    }

    /**
     reconcileCeremony: acts exactly when the stored chain is the staged key's and the live
     key is another, and then completes the ceremony unless the record or the write fails.
     */
    method ReconcileCeremony(n: NodeId, readFails: bool, f: MarkFaults, put: Write, remove: Write, refreshFails: bool)
      requires Valid() && s.op.NoOp? && n in s.nodes && s.soak > 0
      modifies this
      ensures Valid() && s.op.NoOp? && s.chain == old(s).chain
      ensures readFails || !Enabled(old(s), BeginReconcile(n)) ==> s == old(s)
      ensures !readFails && Enabled(old(s), BeginReconcile(n)) ==>
                var recorded := Records(old(s), f);
                && s.live == (if recorded && !put.Lost? then old(s).next else old(s).live)
                && s.next == (if recorded && put.Ok? && !remove.Lost? then None else old(s).next)
                && s.markers == MarkersAfter(old(s), f)
                && (recorded && put.Ok? && !refreshFails ==> n in s.nodes && s.nodes[n].mem == s.chain)
    {
      if readFails || s.next.None? || s.chain.None? || s.live.None? {
        return;
      }
      if s.next != Some(s.chain.value.key) || s.live == s.next {
        return;
      }
      Do(BeginReconcile(n));
      var r := MarkAndPromote(f, true, put, remove);
      if r.Activated? && !refreshFails {
        Do(Refresh(n));
      }
    }

    /** The marker that stands for a digest, known to be in the list. */
    static method FindMarker(recs: seq<Marker>, digest: Key, now: int, ghost known: Marker) returns (m: Marker)
      requires known in recs && known.digest == digest && !Expired(known, now)
      ensures m in recs && m.digest == digest && !Expired(m, now)
    {
      for i := 0 to |recs|
        invariant forall k :: 0 <= k < i ==> recs[k] != known
      {
        if recs[i].digest == digest && !Expired(recs[i], now) {
          return recs[i];
        }
      }
      assert false;
    }
  }
}
