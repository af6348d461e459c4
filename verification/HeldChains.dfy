/**
 Paid-for chains across the cluster: any number of nodes issue, hold, flush, restore and
 restart around one stored chain (scheduler.go, cert_cache.go, manager.go).
 */
module HeldChains {
  import opened Common
  import opened CertCaches

  type Node = nat

  /**
   What a node serves, what it holds unwritten, the latest chain the CA returned to it since
   it started, and what it held when its flush pass began.
   */
  datatype Holder = Holder(mem: Option<Cert>, pending: Option<Cert>, latest: Option<Cert>, snapshot: Option<Cert>)

  const BLANK: Holder := Holder(None, None, None, None)

  datatype State = State(disk: Option<Pem>, nodes: map<Node, Holder>, lastIssued: int)

  /** A flush writes what its snapshot had; `adopts` is whether Refresh loaded. */
  datatype Step =
    | Issue(n: Node, c: Cert, ws: seq<Write>)
    | Snapshot(n: Node)
    | Flush(n: Node, f: FlushFaults, adopts: bool)
    | Restore(n: Node, f: FlushFaults, adopts: bool)
    | Reuse(n: Node, ws: seq<Write>)
    | Refresh(n: Node)
    | Restart(n: Node)

  predicate Enabled(s: State, step: Step) {
    step.n in s.nodes &&
    match step
    case Issue(_, _, ws) => Attempts(ws, PERSIST_ATTEMPTS)
    case Snapshot(n) => s.nodes[n].pending.Some?
    case Flush(n, _, adopts) => s.nodes[n].snapshot.Some? && (adopts ==> s.disk.Some? && s.disk.value.Chain?)
    case Restore(n, _, adopts) =>
      && s.nodes[n].pending.None? && s.nodes[n].mem.Some?
      && (adopts ==> s.disk.Some? && s.disk.value.Chain?)
    case Reuse(n, ws) => s.nodes[n].pending.Some? && Attempts(ws, PERSIST_ATTEMPTS)
    case Refresh(_) => s.disk.Some? && s.disk.value.Chain?
    case Restart(_) => true
  }

  function AsPem(c: Cert): Option<Pem> {
    Some(Chain(c.key, c.notAfter))
  }

  /** The stored chain, as a node that loads it serves it. */
  function Stored(disk: Option<Pem>): Option<Cert> {
    if disk.Some? && disk.value.Chain? then Some(Cert(disk.value.key, disk.value.notAfter)) else None
  }

  predicate Adopts(disk: Option<Pem>, p: Cert, f: FlushFaults, adopts: bool) {
    !f.busy && f.leased && FlushDecision(disk, p, f.readFails).Adopt? && adopts
  }

  function AfterFlush(s: State, n: Node, p: Cert, f: FlushFaults, adopts: bool): State
    requires n in s.nodes
  {
    var v := s.nodes[n];
    State(FlushedDisk(s.disk, p, f),
          s.nodes[n := if Adopts(s.disk, p, f, adopts) then v.(mem := Stored(s.disk), pending := None)
                       else if FlushStores(s.disk, p, f) then v.(pending := None) else v],
          s.lastIssued)
  }

  function Apply(s: State, step: Step): State
    requires Enabled(s, step)
  {
    var v := s.nodes[step.n];
    match step
    case Issue(n, c, ws) =>
      State(if Landed(ws) then AsPem(c) else s.disk,
            s.nodes[n := v.(mem := Some(c), pending := if ws[|ws| - 1].Ok? then None else Some(c), latest := Some(c))],
            c.notAfter)
    case Snapshot(n) => s.(nodes := s.nodes[n := v.(snapshot := v.pending)])
    case Flush(n, f, adopts) =>
      var t := AfterFlush(s, n, v.snapshot.value, f, adopts);
      t.(nodes := t.nodes[n := t.nodes[n].(snapshot := None)])
    case Restore(n, f, adopts) => AfterFlush(s, n, v.mem.value, f, adopts)
    case Reuse(n, ws) =>
      s.(disk := if Landed(ws) then AsPem(v.pending.value) else s.disk,
         nodes := s.nodes[n := v.(mem := v.pending, pending := if ws[|ws| - 1].Ok? then None else v.pending)])
    case Refresh(n) => s.(nodes := s.nodes[n := v.(mem := Stored(s.disk))])
    case Restart(n) => s.(nodes := s.nodes[n := BLANK])
  }

  ghost predicate Init(s: State) {
    && (forall n :: n in s.nodes ==> s.nodes[n] == BLANK)
    && (s.disk.Some? && s.disk.value.Chain? ==> s.disk.value.notAfter <= s.lastIssued)
  }

  ghost predicate IsRun(states: seq<State>, steps: seq<Step>) {
    && |states| == |steps| + 1 && Init(states[0])
    && forall i :: 0 <= i < |steps| ==> Enabled(states[i], steps[i]) && states[i + 1] == Apply(states[i], steps[i])
  }

  /* --------------------------------------------- the methods take these steps */

  /** What one node sees of the state. */
  function ViewOf(s: State, n: Node): Copies
    requires n in s.nodes
  {
    (s.disk, s.nodes[n].mem, s.nodes[n].pending)
  }

  lemma {:induction false} FlushIsTheStep(s: State, n: Node, key: Option<Key>, f: FlushFaults)
    requires n in s.nodes && s.nodes[n].snapshot.Some?
    ensures var step := Flush(n, f, RefreshOutcome(s.disk, key, f.refresh).Loaded?);
            Enabled(s, step) && ViewOf(Apply(s, step), n) == FlushedCopies(ViewOf(s, n), key, s.nodes[n].snapshot.value, f)
  {
  }

  lemma {:induction false} RestoreIsTheStep(s: State, n: Node, key: Option<Key>, now: int, f: FlushFaults)
    requires n in s.nodes && s.nodes[n].pending.None? && s.nodes[n].mem.Some? && now < s.nodes[n].mem.value.notAfter
    ensures var step := Restore(n, f, RefreshOutcome(s.disk, key, f.refresh).Loaded?);
            Enabled(s, step) && ViewOf(Apply(s, step), n) == FlushedCopies(ViewOf(s, n), key, s.nodes[n].mem.value, f)
  {
  }

  lemma {:induction false} IssueIsTheStep(s: State, n: Node, key: Key, e: Encounter)
    requires n in s.nodes && Attempts(e.ws, PERSIST_ATTEMPTS)
    requires !e.issuerFails && e.ca.CaReturns? && Build(e.ca.pem, key).Some?
    ensures var step := Issue(n, Build(e.ca.pem, key).value, e.ws);
            Enabled(s, step) && ViewOf(Apply(s, step), n) == PaidView(ViewOf(s, n), key, e)
  {
    if Last(e.ws).Ok? {
      assert Landed(e.ws);
    }
  }

  /** An activation that reuses the held chain stores it as if the CA had just returned it. */
  lemma {:induction false} ReuseIsTheStep(s: State, n: Node, key: Key, e: Encounter)
    requires n in s.nodes && Attempts(e.ws, PERSIST_ATTEMPTS)
    requires !e.issuerFails && s.nodes[n].pending.Some? && s.nodes[n].pending.value.key == key
    requires e.ca == CaReturns(AsPem(s.nodes[n].pending.value).value)
    ensures var step := Reuse(n, e.ws);
            Enabled(s, step) && ViewOf(Apply(s, step), n) == PaidView(ViewOf(s, n), key, e)
  {
    if Last(e.ws).Ok? {
      assert Landed(e.ws);
    }
  }

  lemma {:induction false} RefreshIsTheStep(s: State, n: Node, key: Option<Key>, f: CertCaches.ReadFaults)
    requires n in s.nodes && RefreshOutcome(s.disk, key, f).Loaded?
    ensures Enabled(s, Refresh(n)) && ViewOf(Apply(s, Refresh(n)), n) == Adopted(ViewOf(s, n), RefreshOutcome(s.disk, key, f))
  {
  }

  /* ------------------------------------------------------------ monotonicity */

  /** The first side conditions: the CA's expiries do not go back, and a rerun activation's held chain is not behind storage. */
  predicate Rising(s: State, step: Step) {
    match step
    case Issue(_, c, _) => s.lastIssued <= c.notAfter
    case Reuse(n, _) =>
      n in s.nodes && s.nodes[n].pending.Some? && !AtLeast(s.disk, s.nodes[n].pending.value.notAfter + 1)
    case _ => true
  }

  ghost predicate RisingRun(states: seq<State>, steps: seq<Step>) {
    |states| == |steps| + 1 && forall i :: 0 <= i < |steps| ==> Rising(states[i], steps[i])
  }

  predicate Issued(s: State, c: Option<Cert>) {
    c.Some? ==> c.value.notAfter <= s.lastIssued
  }

  /** No copy anywhere is later than the CA's latest. */
  ghost predicate BaseInv(s: State) {
    && Issued(s, Stored(s.disk))
    && forall n :: n in s.nodes ==>
         && Issued(s, s.nodes[n].mem) && Issued(s, s.nodes[n].pending)
         && Issued(s, s.nodes[n].latest) && Issued(s, s.nodes[n].snapshot)
  }

  lemma {:induction false} BaseStep(s: State, step: Step)
    requires BaseInv(s) && Enabled(s, step) && Rising(s, step)
    ensures BaseInv(Apply(s, step))
    ensures forall na :: AtLeast(s.disk, na) ==> AtLeast(Apply(s, step).disk, na)
  {
    match step {
      case Flush(n, f, adopts) => FlushIsMonotone(s.disk, s.nodes[n].snapshot.value, f);
      case Restore(n, f, adopts) => FlushIsMonotone(s.disk, s.nodes[n].mem.value, f);
      case _ =>
    }
  }

  lemma {:induction false} RunKeepsBase(states: seq<State>, steps: seq<Step>, i: nat)
    requires IsRun(states, steps) && RisingRun(states, steps) && i < |states|
    ensures BaseInv(states[i])
  {
    if i > 0 {
      hide Apply, Enabled, Rising, BaseInv;
      RunKeepsBase(states, steps, i - 1);
      assert states[i] == Apply(states[i - 1], steps[i - 1]);
      BaseStep(states[i - 1], steps[i - 1]);
    }
  }

  /** What storage has never gets older, flushes of stale snapshots included. */
  lemma {:induction false} StoredExpiryNeverFalls(states: seq<State>, steps: seq<Step>, i: nat, j: nat, na: int)
    requires IsRun(states, steps) && RisingRun(states, steps) && i <= j < |states|
    requires AtLeast(states[i].disk, na)
    ensures AtLeast(states[j].disk, na)
  {
    hide Apply, Enabled, Init, Rising, BaseInv;
    if i < j {
      StoredExpiryNeverFalls(states, steps, i, j - 1, na);
      RunKeepsBase(states, steps, j - 1);
      assert states[j] == Apply(states[j - 1], steps[j - 1]);
      BaseStep(states[j - 1], steps[j - 1]);
    }
  }

  /* ----------------------------------------------------------- conservation */

  /** The second side condition: nothing new is held between a flush's snapshot and its turn. */
  predicate Undisturbed(s: State, step: Step) {
    step.Flush? ==> step.n in s.nodes && s.nodes[step.n].pending == s.nodes[step.n].snapshot
  }

  ghost predicate OrderlyRun(states: seq<State>, steps: seq<Step>) {
    RisingRun(states, steps) && forall i :: 0 <= i < |steps| ==> Undisturbed(states[i], steps[i])
  }

  /** The node's latest paid-for chain is held, or storage has it or one at least as new. */
  predicate Kept(s: State, v: Holder) {
    v.latest.Some? ==> v.pending == v.latest || AtLeast(s.disk, v.latest.value.notAfter)
  }

  ghost predicate KeptInv(s: State) {
    forall n :: n in s.nodes ==> Kept(s, s.nodes[n]) && (s.nodes[n].pending.Some? ==> s.nodes[n].pending == s.nodes[n].latest)
  }

  lemma {:induction false} KeptStep(s: State, step: Step)
    requires BaseInv(s) && KeptInv(s) && Enabled(s, step) && Rising(s, step) && Undisturbed(s, step)
    ensures KeptInv(Apply(s, step))
  {
    BaseStep(s, step);
    match step {
      case Issue(n, c, ws) =>
        if ws[|ws| - 1].Ok? {
          assert Landed(ws);
        }
      case Flush(n, f, adopts) => FlushIsMonotone(s.disk, s.nodes[n].snapshot.value, f);
      case Reuse(n, ws) =>
        if ws[|ws| - 1].Ok? {
          assert Landed(ws);
        }
      case _ =>
    }
  }

  lemma {:induction false} RunKeepsKept(states: seq<State>, steps: seq<Step>, i: nat)
    requires IsRun(states, steps) && OrderlyRun(states, steps) && i < |states|
    ensures KeptInv(states[i])
  {
    if i > 0 {
      hide Apply, Enabled, Rising, Undisturbed, BaseInv, KeptInv;
      RunKeepsKept(states, steps, i - 1);
      RunKeepsBase(states, steps, i - 1);
      assert states[i] == Apply(states[i - 1], steps[i - 1]);
      KeptStep(states[i - 1], steps[i - 1]);
    }
  }

  /**
   Conservation of paid orders: at every moment, whatever the other nodes do, the latest
   chain the CA returned to a node since it started is held by it, or storage has it or one
   at least as new.
   */
  lemma {:induction false} PaidChainsAreKept(states: seq<State>, steps: seq<Step>, i: nat, n: Node)
    requires IsRun(states, steps) && OrderlyRun(states, steps) && i < |states| && n in states[i].nodes
    ensures Kept(states[i], states[i].nodes[n])
  {
    RunKeepsKept(states, steps, i);
  }

  /* ------------------------------------------------------------- convergence */

  /** A flush in which no storage call fails. */
  predicate Healthy(step: Step) {
    step.Flush? && !step.f.busy && step.f.leased && !step.f.readFails && step.f.w.Ok?
  }

  /** What healthy flushes since s leave: held or flushed, and storage has nothing but what was there or held. */
  ghost predicate Flushing(s: State, t: State) {
    && t.nodes.Keys == s.nodes.Keys
    && (forall n :: n in s.nodes ==> t.nodes[n].pending.None? || t.nodes[n].pending == s.nodes[n].pending)
    && (t.disk == s.disk || exists n :: n in s.nodes && s.nodes[n].pending.Some? && t.disk == AsPem(s.nodes[n].pending.value))
  }

  lemma {:induction false} FlushingStep(s: State, t: State, step: Step)
    requires Flushing(s, t) && Enabled(t, step) && Undisturbed(t, step) && (Healthy(step) || step.Snapshot?)
    ensures Flushing(s, Apply(t, step))
    ensures Healthy(step) ==> AtLeast(Apply(t, step).disk, t.nodes[step.n].snapshot.value.notAfter)
  {
    assert t.nodes[step.n].pending.Some? ==> t.nodes[step.n].pending == s.nodes[step.n].pending;
  }

  lemma {:induction false} FlushingSoFar(states: seq<State>, steps: seq<Step>, i: nat, j: nat)
    requires IsRun(states, steps) && OrderlyRun(states, steps) && i <= j < |states|
    requires forall k :: i <= k < j ==> Healthy(steps[k]) || steps[k].Snapshot?
    ensures Flushing(states[i], states[j])
  {
    hide Apply, Enabled, Rising, Undisturbed, Healthy;
    if i < j {
      FlushingSoFar(states, steps, i, j - 1);
      assert states[j] == Apply(states[j - 1], steps[j - 1]) && (Healthy(steps[j - 1]) || steps[j - 1].Snapshot?);
      FlushingStep(states[i], states[j - 1], steps[j - 1]);
    }
  }

  /** The node that step k flushes. */
  ghost predicate Flushes(steps: seq<Step>, k: nat, n: Node) {
    k < |steps| && steps[k].Flush? && steps[k].n == n
  }

  /**
   After healthy flushes, in any order and whenever their passes began, storage is at least as
   new as it was and as every chain a node that flushed held, and it holds one of those.
   */
  lemma {:induction false} FlushesConverge(states: seq<State>, steps: seq<Step>, i: nat, j: nat)
    requires IsRun(states, steps) && OrderlyRun(states, steps) && i <= j < |states|
    requires forall k :: i <= k < j ==> Healthy(steps[k]) || steps[k].Snapshot?
    ensures forall na :: AtLeast(states[i].disk, na) ==> AtLeast(states[j].disk, na)
    ensures forall n, k :: i <= k < j && Flushes(steps, k, n) ==>
              n in states[i].nodes && states[i].nodes[n].pending.Some? && AtLeast(states[j].disk, states[i].nodes[n].pending.value.notAfter)
    ensures states[j].disk == states[i].disk ||
            exists n :: n in states[i].nodes && states[i].nodes[n].pending.Some? && states[j].disk == AsPem(states[i].nodes[n].pending.value)
  {
    hide Apply, Init;
    FlushingSoFar(states, steps, i, j);
    forall na | AtLeast(states[i].disk, na) ensures AtLeast(states[j].disk, na) {
      StoredExpiryNeverFalls(states, steps, i, j, na);
    }
    forall n, k | i <= k < j && Flushes(steps, k, n)
      ensures n in states[i].nodes && states[i].nodes[n].pending.Some? && AtLeast(states[j].disk, states[i].nodes[n].pending.value.notAfter)
    {
      FlushingSoFar(states, steps, i, k);
      assert states[k + 1] == Apply(states[k], steps[k]) && Undisturbed(states[k], steps[k]) && Enabled(states[k], steps[k]);
      FlushingStep(states[i], states[k], steps[k]);
      StoredExpiryNeverFalls(states, steps, k + 1, j, states[k].nodes[n].snapshot.value.notAfter);
    }
  }

  /* ---------------------------------------- what the side conditions keep out */

  /**
   The snapshot is taken before the lock: a chain held in between can be dropped when the
   older one is stored, and then it is nowhere. Whatever the flush meets, the newer chain is
   kept if and only if storage already has it.
   */
  lemma {:induction false} StaleSnapshotIsSafeIff(s: State, n: Node)
    requires n in s.nodes && s.nodes[n].pending.Some? && s.nodes[n].pending == s.nodes[n].latest
    requires s.nodes[n].snapshot.Some? && s.nodes[n].snapshot.value.notAfter < s.nodes[n].latest.value.notAfter
    ensures (forall f, adopts :: Enabled(s, Flush(n, f, adopts)) ==>
               Kept(Apply(s, Flush(n, f, adopts)), Apply(s, Flush(n, f, adopts)).nodes[n]))
            <==> AtLeast(s.disk, s.nodes[n].latest.value.notAfter)
  {
    var f := FlushFaults(false, true, false, ReadFaults(false, false), Ok);
    var stored := s.disk.Some? && s.disk.value.Chain?;
    if !AtLeast(s.disk, s.nodes[n].latest.value.notAfter) {
      assert Enabled(s, Flush(n, f, stored)) && !Kept(Apply(s, Flush(n, f, stored)), Apply(s, Flush(n, f, stored)).nodes[n]);
    }
  }

  lemma {:induction false} Grow(states: seq<State>, steps: seq<Step>, step: Step)
    returns (states': seq<State>, steps': seq<Step>)
    requires IsRun(states, steps) && Enabled(Last(states), step)
    ensures IsRun(states', steps') && Last(states') == Apply(Last(states), step)
    ensures states <= states' && steps' == steps + [step]
  {
    hide Apply, Enabled, Init;
    states', steps' := states + [Apply(Last(states), step)], steps + [step];
    forall i | 0 <= i < |steps'|
      ensures Enabled(states'[i], steps'[i]) && states'[i + 1] == Apply(states'[i], steps'[i])
    {
      if i < |steps| {
        assert states'[i] == states[i] && steps'[i] == steps[i] && states'[i + 1] == states[i + 1];
      }
    }
  }

  /** The run: a second chain is held after the snapshot, the first is stored, the second is gone. */
  lemma {:induction false} StaleSnapshotLosesAChain() returns (states: seq<State>, steps: seq<Step>)
    ensures IsRun(states, steps)
    ensures 0 in Last(states).nodes && !Kept(Last(states), Last(states).nodes[0])
  {
    var first, second := Cert(1, 100), Cert(1, 200);
    states, steps := [State(None, map[0 := BLANK], 0)], [];
    states, steps := Grow(states, steps, Issue(0, first, [Lost]));
    states, steps := Grow(states, steps, Snapshot(0));
    states, steps := Grow(states, steps, Issue(0, second, [Lost]));
    states, steps := Grow(states, steps, Flush(0, FlushFaults(false, true, false, ReadFaults(false, false), Ok), false));
  }

  /**
   Rerunning an activation writes the held chain whatever storage has: it keeps the stored
   expiry exactly when storage is not already ahead.
   */
  lemma {:induction false} ReuseLowersIff(s: State, n: Node, ws: seq<Write>)
    requires Enabled(s, Reuse(n, ws)) && Landed(ws)
    ensures var p := s.nodes[n].pending.value;
            (forall na :: AtLeast(s.disk, na) ==> AtLeast(Apply(s, Reuse(n, ws)).disk, na))
            <==> !AtLeast(s.disk, p.notAfter + 1)
  {
    var p := s.nodes[n].pending.value;
    if AtLeast(s.disk, p.notAfter + 1) {
      assert !AtLeast(Apply(s, Reuse(n, ws)).disk, p.notAfter + 1);
    }
  }

  /** So does an order whose write lands. */
  lemma {:induction false} IssueLowersIff(s: State, n: Node, c: Cert, ws: seq<Write>)
    requires Enabled(s, Issue(n, c, ws)) && Landed(ws)
    ensures (forall na :: AtLeast(s.disk, na) ==> AtLeast(Apply(s, Issue(n, c, ws)).disk, na))
            <==> !AtLeast(s.disk, c.notAfter + 1)
  {
    if AtLeast(s.disk, c.notAfter + 1) {
      assert !AtLeast(Apply(s, Issue(n, c, ws)).disk, c.notAfter + 1);
    }
  }

  /** The run: node 0 holds a chain, node 1 stores a newer one, node 0 reuses its own. */
  lemma {:induction false} ReuseLowersTheExpiry() returns (states: seq<State>, steps: seq<Step>)
    ensures IsRun(states, steps) && |steps| > 0
    ensures AtLeast(states[|steps| - 1].disk, 200) && !AtLeast(Last(states).disk, 200)
  {
    states, steps := [State(None, map[0 := BLANK, 1 := BLANK], 0)], [];
    states, steps := Grow(states, steps, Issue(0, Cert(1, 100), [Lost]));
    states, steps := Grow(states, steps, Issue(1, Cert(1, 200), [Ok]));
    assert [Ok][0] == Ok && Landed([Ok]);
    states, steps := Grow(states, steps, Reuse(0, [Ok]));
  }

  /** Holding is in memory only: a restart before the flush loses what was paid for. */
  lemma {:induction false} RestartLosesAChain() returns (states: seq<State>, steps: seq<Step>)
    ensures IsRun(states, steps) && OrderlyRun(states, steps)
    ensures var s := Last(states);
            s.lastIssued == 100 && !AtLeast(s.disk, 100) && forall n :: n in s.nodes ==> s.nodes[n].pending.None? && s.nodes[n].mem.None?
  {
    states, steps := [State(None, map[0 := BLANK], 0)], [];
    states, steps := Grow(states, steps, Issue(0, Cert(1, 100), [Lost]));
    states, steps := Grow(states, steps, Restart(0));
    assert states[0] == State(None, map[0 := BLANK], 0);
  }
}
