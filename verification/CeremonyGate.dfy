/**
 The gate of the ceremony: no key is promoted whose digest DNS was not seen to publish.
 */
module CeremonyGate {
  import opened Common
  import opened Retiring
  import opened Ceremony

  predicate OpUses(op: Ceremony.Op, k: Key) {
    match op
    case Ordering(_, k', activation) => activation && k' == k
    case Putting(_, c, _, activation) => activation && c.key == k
    case Marking(_, k') => k' == k
    case Promoting(_, k', _) => k' == k
    case Flushing(_, p) => p.key == k
    case _ => false
  }

  /** Something beyond the gate exists for the key: a chain, held or stored, or work in progress. */
  ghost predicate Uses(s: State, k: Key) {
    || (s.chain.Some? && s.chain.value.key == k)
    || (exists n :: n in s.nodes && HeldFor(s, n, k))
    || OpUses(s.op, k)
  }

  ghost predicate GateInv(s: State) {
    Staged(s) && Uses(s, s.next.value) ==> s.next.value in s.seen
  }

  /** No activation skips the gate: every one past it saw the staged digest published. */
  predicate Ungated(step: Step) {
    step.Gate? && !step.visible
  }

  lemma {:induction false} UsesFrom(s: State, step: Step, k: Key)
    requires Weak(s) && Enabled(s, step) && Uses(Apply(s, step), k)
    ensures Uses(s, k) || (step.Gate? && k == s.op.k) || (step.BeginRenew? && s.live == Some(k))
            || (step.Order? && s.live == Some(k)) || (step.PutChain? && s.live == Some(k))
  {
    var t := Apply(s, step);
    ChainFrom(s, step);
    if n :| n in t.nodes && HeldFor(t, n, k) {
      PendingFrom(s, step, n);
      assert HeldFor(s, n, k) || (s.op.Putting? && s.op.c.key == k);
    }
    if OpUses(t.op, k) && step.BeginFlush? {
      assert HeldFor(s, step.n, k);
    }
  }

  lemma {:induction false} GateStep(s: State, step: Step)
    requires Weak(s) && GateInv(s) && Enabled(s, step) && !Ungated(step)
    ensures GateInv(Apply(s, step))
  {
    var t := Apply(s, step);
    if Staged(t) && Uses(t, t.next.value) {
      var k := t.next.value;
      UsesFrom(s, step, k);
      if step.Stage? {
        NotUsedYet(s, k);
      } else if !KeyStep(step) {
        OthersKeepKeys(s, step);
      }
      assert s.seen <= t.seen;
    }
  }

  lemma {:induction false} NotUsedYet(s: State, k: Key)
    requires Weak(s) && k !in s.made
    ensures !Uses(s, k)
  {
  }

  lemma {:induction false} InitIsGated(s: State)
    requires Init(s)
    ensures GateInv(s)
  {
  }

  lemma {:induction false} RunKeepsGate(states: seq<State>, steps: seq<Step>, i: nat)
    requires IsRun(states, steps) && i < |states|
    requires forall j :: 0 <= j < |steps| ==> !Ungated(steps[j])
    ensures GateInv(states[i])
  {
    hide Apply, Enabled, Init, Weak, GateInv, Ungated;
    if i == 0 {
      InitIsGated(states[0]);
    } else {
      RunKeepsGate(states, steps, i - 1);
      RunKeepsWeak(states, steps, i - 1);
      assert states[i] == Apply(states[i - 1], steps[i - 1]);
      GateStep(states[i - 1], steps[i - 1]);
    }
  }

  /**
   In every run that never skips the gate, every promotion that changes the key, the ungated
   reconciliation's included, is of a key whose digest DNS was seen to publish, against a
   chain stored for it, and after the outgoing digest was recorded: its marker is listed
   until it expires.
   */
  lemma {:induction false} PromotionIsGated(states: seq<State>, steps: seq<Step>, i: nat)
    requires IsRun(states, steps) && i < |steps|
    requires forall j :: 0 <= j < |steps| ==> !Ungated(steps[j])
    requires steps[i].PutLive? && Staged(states[i])
    ensures states[i].next.value in states[i].seen
    ensures states[i].chain.Some? && states[i].next == Some(states[i].chain.value.key)
    ensures states[i].op.Promoting? && Some(states[i].op.m.digest) == states[i].live
    ensures Expired(states[i].op.m, states[i].now) || states[i].op.m in states[i].markers
  {
    RunKeepsWeak(states, steps, i);
    RunKeepsGate(states, steps, i);
    assert Enabled(states[i], steps[i]);
    assert OpUses(states[i].op, states[i].next.value);
  }
}
