/**
 The stored chain through the ceremony: bound to the live or the staged key wherever a run is
 interrupted, and so recoverable.
 */
module CeremonyChains {
  import opened Common
  import opened Retiring
  import opened Ceremony

  /** What holds of every held chain, by the slot its key is in. */
  predicate HeldOk(s: State, c: Chain) {
    && c.notAfter <= s.lastIssued
    && (if s.live == Some(c.key) then c.notAfter >= s.liveFrom && (Staged(s) ==> c.notAfter <= s.nextFrom)
        else if s.next == Some(c.key) then c.notAfter >= s.nextFrom
        else s.chain.Some? && c.notAfter <= s.liveFrom)
  }

  /** And of the stored one. */
  predicate StoredOk(s: State, c: Chain) {
    && c.notAfter <= s.lastIssued && Bound(s, c.key)
    && c.notAfter >= if s.live == Some(c.key) then s.liveFrom else s.nextFrom
  }

  ghost predicate ChainsInv(s: State) {
    && s.liveFrom <= s.lastIssued && (Staged(s) ==> s.liveFrom <= s.nextFrom <= s.lastIssued)
    && (s.chain.Some? ==> StoredOk(s, s.chain.value))
    && (forall n :: n in s.nodes && s.nodes[n].pending.Some? ==> HeldOk(s, s.nodes[n].pending.value))
  }

  /** What the operation has in hand is a good chain, and a renewal is no ceremony's rival. */
  ghost predicate HandsInv(s: State) {
    match s.op
    case Ordering(n, _, activation) => activation || Unchained(s, n)
    case Putting(n, c, _, activation) =>
      if activation then HeldOk(s, c)
      else s.liveFrom <= c.notAfter == s.lastIssued && Unchained(s, n)
    case Flushing(_, p) => HeldOk(s, p) && !Ahead(s, p) && Bound(s, p.key)
    case _ => true
  }

  ghost predicate Inv(s: State) {
    Weak(s) && ChainsInv(s) && HandsInv(s)
  }

  /** No step makes a good chain bad, unless it is the one a renewal replaces. */
  lemma {:induction false} HeldStaysOk(s: State, step: Step, c: Chain)
    requires Inv(s) && Enabled(s, step) && ChainOrderly(s, step) && HeldOk(s, c) && c.key in s.made
    requires step.PutChain? && !s.op.activation && Staged(s) ==> s.next != Some(c.key)
    ensures HeldOk(Apply(s, step), c)
  {
    if !KeyStep(step) {
      OthersKeepKeys(s, step);
    }
  }

  /** What a write of a chain leaves. */
  lemma {:induction false} PutEffect(s: State, step: Step)
    requires Enabled(s, step) && step.PutChain?
    ensures var t, op := Apply(s, step), s.op;
            && SameKeys(s, t) && (t.chain == s.chain || t.chain == Some(op.c)) && (s.chain.Some? ==> t.chain.Some?)
            && t.nodes.Keys == s.nodes.Keys && (forall n :: n in s.nodes && n != op.n ==> t.nodes[n] == s.nodes[n])
            && (t.op.Putting? ==> t.nextFrom == s.nextFrom && t.nodes == s.nodes)
  {
  }

  /** And what it leaves held when it is the last. */
  lemma {:induction false} LastPutEffect(s: State, step: Step)
    requires Enabled(s, step) && step.PutChain? && !Apply(s, step).op.Putting?
    ensures var t, op := Apply(s, step), s.op;
            && op.n in t.nodes && (t.nodes[op.n].pending.None? || t.nodes[op.n].pending == Some(op.c))
            && t.nextFrom == if t.nodes[op.n].pending.Some? && !op.activation && Staged(s) then op.c.notAfter else s.nextFrom
  {
  }

  lemma {:induction false} StoredStep(s: State, step: Step)
    requires Inv(s) && Enabled(s, step) && ChainOrderly(s, step) && Apply(s, step).chain.Some?
    ensures StoredOk(Apply(s, step), Apply(s, step).chain.value)
  {
    if step.PutChain? {
      StoredPut(s, step);
    } else {
      ChainFrom(s, step);
      if !KeyStep(step) {
        OthersKeepKeys(s, step);
      }
    }
  }

  lemma {:induction false} StoredPut(s: State, step: Step)
    requires Inv(s) && Enabled(s, step) && step.PutChain? && Apply(s, step).chain.Some?
    ensures StoredOk(Apply(s, step), Apply(s, step).chain.value)
  {
    PutEffect(s, step);
    if !Apply(s, step).op.Putting? {
      LastPutEffect(s, step);
    }
    hide Apply, Enabled, KeysInv, MadeInv;
  }

  lemma {:induction false} FromsStep(s: State, step: Step)
    requires Inv(s) && Enabled(s, step) && ChainOrderly(s, step)
    ensures var t := Apply(s, step);
            t.liveFrom <= t.lastIssued && (Staged(t) ==> t.liveFrom <= t.nextFrom <= t.lastIssued)
  {
    if !KeyStep(step) {
      OthersKeepKeys(s, step);
    }
  }

  /** A chain a renewal leaves held is good: it is what now separates the keys. */
  lemma {:induction false} PutStep(s: State, step: Step, n: NodeId)
    requires Inv(s) && Enabled(s, step) && step.PutChain? && n in Apply(s, step).nodes && Apply(s, step).nodes[n].pending.Some?
    ensures HeldOk(Apply(s, step), Apply(s, step).nodes[n].pending.value)
  {
    PutEffect(s, step);
    if !Apply(s, step).op.Putting? {
      LastPutEffect(s, step);
    }
    hide Apply, Enabled, KeysInv, MadeInv;
  }

  lemma {:induction false} ChainsStep(s: State, step: Step)
    requires Inv(s) && Enabled(s, step) && ChainOrderly(s, step)
    ensures ChainsInv(Apply(s, step))
  {
    var t := Apply(s, step);
    FromsStep(s, step);
    if t.chain.Some? {
      StoredStep(s, step);
    }
    forall n | n in t.nodes && t.nodes[n].pending.Some? ensures HeldOk(t, t.nodes[n].pending.value) {
      PendingFrom(s, step, n);
      if step.PutChain? {
        PutStep(s, step, n);
      } else {
        HeldStaysOk(s, step, t.nodes[n].pending.value);
      }
    }
  }

  lemma {:induction false} HandsCallStep(s: State, step: Step)
    requires Inv(s) && Enabled(s, step) && CallStep(step)
    ensures HandsInv(Apply(s, step))
  {
  }

  lemma {:induction false} HandsOtherStep(s: State, step: Step)
    requires Inv(s) && Enabled(s, step) && ChainOrderly(s, step) && !CallStep(step)
    ensures HandsInv(Apply(s, step))
  {
  }

  lemma {:induction false} HandsStep(s: State, step: Step)
    requires Inv(s) && Enabled(s, step) && ChainOrderly(s, step)
    ensures HandsInv(Apply(s, step))
  {
    hide Inv, Enabled, Apply, ChainOrderly, HandsInv;
    if CallStep(step) {
      HandsCallStep(s, step);
    } else {
      HandsOtherStep(s, step);
    }
  }

  lemma {:induction false} InitIsBound(s: State)
    requires Init(s)
    ensures ChainsInv(s) && HandsInv(s)
  {
  }

  lemma {:induction false} RunKeepsInv(states: seq<State>, steps: seq<Step>, i: nat)
    requires IsRun(states, steps) && ChainOrderlyRun(states, steps) && i < |states|
    ensures Inv(states[i])
  {
    hide Apply, Enabled, Init, ChainOrderly, Weak, ChainsInv, HandsInv;
    RunKeepsWeak(states, steps, i);
    if i == 0 {
      InitIsBound(states[0]);
    } else {
      RunKeepsInv(states, steps, i - 1);
      var s, step := states[i - 1], steps[i - 1];
      assert states[i] == Apply(s, step) && ChainOrderly(s, step);
      ChainsStep(s, step);
      HandsStep(s, step);
    }
  }

  /**
   Whatever write an operation stops before, the stored chain is bound to the live or the
   staged key, and no held chain for an older key is newer than it.
   */
  lemma {:induction false} StoredChainIsBound(states: seq<State>, steps: seq<Step>, i: nat)
    requires IsRun(states, steps) && ChainOrderlyRun(states, steps) && i < |states|
    ensures states[i].chain.Some? ==> Bound(states[i], states[i].chain.value.key)
    ensures forall n :: n in states[i].nodes && states[i].nodes[n].pending.Some? ==>
              Bound(states[i], states[i].nodes[n].pending.value.key) || Ahead(states[i], states[i].nodes[n].pending.value)
  {
    RunKeepsInv(states, steps, i);
    var s := states[i];
    forall n | n in s.nodes && s.nodes[n].pending.Some?
      ensures Bound(s, s.nodes[n].pending.value.key) || Ahead(s, s.nodes[n].pending.value)
    {
      assert HeldOk(s, s.nodes[n].pending.value);
    }
  }

  /* ---------------------------------------------------------------- recovery */

  /** A flush of node n's held chain in which no storage call fails. */
  function HealthyFlush(s: State, n: NodeId): (r: State)
    ensures r.soak == s.soak
  {
    if !Enabled(s, BeginFlush(n)) then s
    else
      var t := Apply(s, BeginFlush(n));
      if t.op.Flushing? then Apply(t, FlushPut(Ok)) else t
  }

  /** reconcileCeremony on node n with no storage call failing: record, promote, remove, refresh. */
  ghost function HealthyReconcile(s: State, n: NodeId): (r: State)
    requires s.soak > 0
    ensures r.soak == s.soak
  {
    if !Enabled(s, BeginReconcile(n)) then s
    else
      Serve(s.(live := s.next, next := None, markers := MarkedList(s), liveFrom := s.nextFrom,
               retired := s.retired[s.live.value := Retired(s.now, RecordedMarker(s))]),
            n, s.chain.value)
  }

  /** The ceremony is over: nothing staged, and the stored chain, if any, is the live key's. */
  predicate Settled(s: State) {
    s.next.None? && (s.chain.Some? ==> s.live == Some(s.chain.value.key))
  }

  /** The ceremony waits for its operator: a new key is staged and no chain for it is stored. */
  predicate BeforeStore(s: State) {
    Staged(s) && (s.chain.Some? ==> s.live == Some(s.chain.value.key))
  }

  /**
   In every run a node lets go of a chain it holds only when storage has that very chain, or
   when the node serves what storage has; a restart excepted.
   */
  lemma {:induction false} HeldUntilStored(states: seq<State>, steps: seq<Step>, i: nat, n: NodeId, p: Chain)
    requires IsRun(states, steps) && i < |steps| && steps[i] != Restart(n)
    requires n in states[i].nodes && states[i].nodes[n].pending == Some(p)
    ensures n in states[i + 1].nodes
    ensures var t := states[i + 1];
            t.nodes[n].pending.None? ==> t.chain == Some(p) || (t.chain.Some? && t.nodes[n].mem == t.chain)
  {
    assert Enabled(states[i], steps[i]) && states[i + 1] == Apply(states[i], steps[i]);
    FlushIsOfHeld(states, steps, i);
    LetsGo(states[i], steps[i], n, p);
  }

  lemma {:induction false} LetsGo(s: State, step: Step, n: NodeId, p: Chain)
    requires Enabled(s, step) && step != Restart(n) && n in s.nodes && s.nodes[n].pending == Some(p)
    requires s.op.Flushing? && s.op.n in s.nodes ==> s.nodes[s.op.n].pending == Some(s.op.p)
    ensures var t := Apply(s, step);
            n in t.nodes && (t.nodes[n].pending.None? ==> t.chain == Some(p) || (t.chain.Some? && t.nodes[n].mem == t.chain))
  {
    if step.PutChain? {
      PutLetsGo(s, step, n);
    } else if !step.BeginFlush? && !step.FlushPut? {
      OthersHold(s, step, n);
    }
  }

  lemma {:induction false} PutLetsGo(s: State, step: Step, n: NodeId)
    requires Enabled(s, step) && step.PutChain? && n in s.nodes && s.nodes[n].pending.Some?
    ensures var t := Apply(s, step);
            n in t.nodes && (t.nodes[n].pending.None? ==> t.chain.Some? && t.nodes[n].mem == t.chain)
  {
  }

  lemma {:induction false} OthersHold(s: State, step: Step, n: NodeId)
    requires Enabled(s, step) && !step.PutChain? && !step.BeginFlush? && !step.FlushPut? && step != Restart(n) && n in s.nodes
    ensures n in Apply(s, step).nodes && Apply(s, step).nodes[n].pending == s.nodes[n].pending
  {
  }

  /** What is being flushed is still held, or its node restarted. */
  lemma {:induction false} FlushIsOfHeld(states: seq<State>, steps: seq<Step>, i: nat)
    requires IsRun(states, steps) && i < |states|
    ensures var s := states[i]; s.op.Flushing? && s.op.n in s.nodes ==> s.nodes[s.op.n].pending == Some(s.op.p)
  {
    if i > 0 {
      FlushIsOfHeld(states, steps, i - 1);
      assert Enabled(states[i - 1], steps[i - 1]) && states[i] == Apply(states[i - 1], steps[i - 1]);
      FlushOfHeldStep(states[i - 1], steps[i - 1]);
    }
  }

  lemma {:induction false} FlushOfHeldStep(s: State, step: Step)
    requires Enabled(s, step)
    requires s.op.Flushing? && s.op.n in s.nodes ==> s.nodes[s.op.n].pending == Some(s.op.p)
    ensures var t := Apply(s, step); t.op.Flushing? && t.op.n in t.nodes ==> t.nodes[t.op.n].pending == Some(t.op.p)
  {
  }

  /** A flush that writes lets go exactly when the write reports success. */
  lemma {:induction false} FlushLetsGoIff(s: State, w: Write)
    requires Enabled(s, FlushPut(w)) && s.nodes[s.op.n].pending.Some?
    ensures var t := Apply(s, FlushPut(w));
            && s.op.n in t.nodes && (t.nodes[s.op.n].pending.None? <==> w.Ok?)
            && t.chain == if w.Lost? then s.chain else Some(s.op.p)
  {
  }

  /** And a healthy flush does let go, unless storage is ahead with a chain that cannot be served. */
  lemma {:induction false} HealthyFlushReleasesIff(s: State, n: NodeId)
    requires Enabled(s, BeginFlush(n))
    ensures n in HealthyFlush(s, n).nodes
    ensures HealthyFlush(s, n).nodes[n].pending.None? <==> !Ahead(s, s.nodes[n].pending.value) || Loadable(s)
  {
  }

  lemma {:induction false} FlushKeepsBound(s: State, n: NodeId)
    requires Inv(s) && s.op.NoOp? && n in s.nodes
    ensures var f := HealthyFlush(s, n);
            && f.live == s.live && f.next == s.next && f.op.NoOp? && f.soak == s.soak && n in f.nodes
            && (f.chain.Some? ==> Bound(f, f.chain.value.key))
            && (f.chain.None? <==> s.chain.None? && s.nodes[n].pending.None?)
  {
    if Enabled(s, BeginFlush(n)) {
      assert HeldOk(s, s.nodes[n].pending.value);
    }
  }

  lemma {:induction false} ReconcileSettles(f: State, n: NodeId)
    requires f.op.NoOp? && n in f.nodes && f.soak > 0
    requires f.chain.Some? ==> Bound(f, f.chain.value.key)
    ensures var t := HealthyReconcile(f, n);
            && ((Settled(t) || BeforeStore(t)) <==> if f.live.Some? then f.next != f.live else f.chain.None?)
            && HealthyReconcile(t, n) == t
  {
  }

  /** A ceremony can be settled: the live key is not itself staged, and without one no chain is stored or held here. */
  predicate Recoverable(s: State, n: NodeId)
    requires n in s.nodes
  {
    if s.live.Some? then s.next != s.live else s.chain.None? && s.nodes[n].pending.None?
  }

  lemma {:induction false} RecoveryFrom(s: State, n: NodeId)
    requires Inv(s) && s.op.NoOp? && n in s.nodes && s.soak > 0
    ensures var t := HealthyReconcile(HealthyFlush(s, n), n);
            && ((Settled(t) || BeforeStore(t)) <==> Recoverable(s, n))
            && HealthyReconcile(t, n) == t
  {
    hide HealthyFlush, HealthyReconcile, Settled, BeforeStore, Inv;
    FlushKeepsBound(s, n);
    ReconcileSettles(HealthyFlush(s, n), n);
  }

  /**
   Wherever a run is interrupted, one healthy flush and one reconciliation settle the ceremony
   or leave it staged before its chain is stored, if and only if the staging slot does not
   hold the live key itself and, without a live key, there is no chain yet; a second
   reconciliation changes nothing.
   */
  lemma {:induction false} RecoverySettles(states: seq<State>, steps: seq<Step>, i: nat, n: NodeId)
    requires IsRun(states, steps) && ChainOrderlyRun(states, steps) && i < |states|
    requires states[i].op.NoOp? && n in states[i].nodes
    ensures states[i].soak > 0
    ensures var t := HealthyReconcile(HealthyFlush(states[i], n), n);
            && ((Settled(t) || BeforeStore(t)) <==> Recoverable(states[i], n))
            && HealthyReconcile(t, n) == t
  {
    hide HealthyFlush, HealthyReconcile, Settled, BeforeStore, Inv, IsRun, ChainOrderlyRun;
    RunKeepsInv(states, steps, i);
    SoakIsPositive(states, steps, i);
    RecoveryFrom(states[i], n);
  }
}
