/**
 DANE coverage through the ceremony: what nodes serve and what the operator is told to
 publish.
 */
module CeremonyCoverage {
  import opened Common
  import opened Retiring
  import opened Ceremony
  import DaneController

  ghost predicate RetiredInv(s: State) {
    && s.soak >= 2 * s.interval && s.interval > 0 && Distinct(s.markers)
    && (forall k :: k in s.retired ==> RetiredOk(s, k, s.retired[k]))
  }

  /** The outgoing digest is recorded past the last moment a prompt node may serve it. */
  predicate RetiredOk(s: State, k: Key, r: Retired) {
    && r.at <= s.now && r.marker.digest == k && r.marker.retireAfter > r.at + s.interval
    && (Expired(r.marker, s.now) || r.marker in s.markers)
  }

  ghost predicate ServedInv(s: State) {
    forall n :: n in s.nodes ==> ServedOk(s, s.nodes[n])
  }

  /** What a node serves is live or staged, or has retired since the node last took it over. */
  predicate ServedOk(s: State, v: Node) {
    && v.refreshed <= s.now
    && (v.mem.Some? ==>
          Bound(s, v.mem.value.key) || (v.mem.value.key in s.retired && v.refreshed <= s.retired[v.mem.value.key].at))
  }

  lemma {:induction false} MarkersStep(s: State, step: Step)
    requires Enabled(s, step) && Distinct(s.markers)
    ensures var t := Apply(s, step);
            && Distinct(t.markers) && s.now <= t.now && t.soak == s.soak && t.interval == s.interval
            && forall m :: m in s.markers && !Expired(m, s.now) ==> m in t.markers
  {
    var list := Apply(s, step).markers;
    MarkersFrom(s, step);
    if list != s.markers {
      var op := if step.Clean? then Retiring.Op.Clean(step.t) else Retiring.Op.Mark(s.live.value, s.now);
      StepKeepsDistinct(s.soak, s.markers, op, list);
      forall m | m in s.markers && !Expired(m, s.now) ensures m in list {
        StepKeepsUnexpired(s.soak, s.markers, op, list, m);
      }
    }
  }

  lemma {:induction false} RetiredFrom(s: State, step: Step)
    requires Enabled(s, step) && Apply(s, step).retired != s.retired
    ensures step.PutLive? && Staged(s)
    ensures var t := Apply(s, step);
            t.retired == s.retired[s.live.value := Retired(s.now, s.op.m)] && t.now == s.now && t.markers == s.markers
  {
    if !KeyStep(step) {
      OthersKeepKeys(s, step);
    }
  }

  lemma {:induction false} RetiredStep(s: State, step: Step)
    requires Weak(s) && RetiredInv(s) && Enabled(s, step) && TimeOrderly(s, step)
    ensures RetiredInv(Apply(s, step))
  {
    MarkersStep(s, step);
    var t := Apply(s, step);
    if t.retired != s.retired {
      RetiredFrom(s, step);
    }
    forall k | k in t.retired ensures RetiredOk(t, k, t.retired[k]) {
      if k in s.retired {
        assert RetiredOk(s, k, s.retired[k]);
      }
    }
  }

  predicate SameMemory(v: Node, w: Node) {
    v.mem == w.mem && v.refreshed == w.refreshed
  }

  /** The steps that change what a node serves. */
  predicate ServeStep(step: Step) {
    step.Refresh? || step.PutChain? || step.BeginFlush? || step.Restart?
  }

  lemma {:induction false} OthersKeepMemory(s: State, step: Step, n: NodeId)
    requires Enabled(s, step) && !ServeStep(step) && n in Apply(s, step).nodes
    ensures n in s.nodes && SameMemory(s.nodes[n], Apply(s, step).nodes[n])
  {
  }

  /** What a node newly serves is bound to the live or the staged key. */
  lemma {:induction false} NewlyServed(s: State, step: Step, n: NodeId)
    requires s.op.Putting? ==> Bound(s, s.op.c.key)
    requires Enabled(s, step) && ServeStep(step) && n in Apply(s, step).nodes
    ensures var v := Apply(s, step).nodes[n];
            || (n in s.nodes && SameMemory(s.nodes[n], v))
            || (v.refreshed == s.now && (v.mem.Some? ==> Bound(s, v.mem.value.key)))
    ensures Apply(s, step).now == s.now
  {
  }

  lemma {:induction false} ServedStays(s: State, step: Step, v: Node)
    requires Weak(s) && Enabled(s, step) && ServedOk(s, v)
    ensures ServedOk(Apply(s, step), v)
  {
    MarkersFrom(s, step);
    if !KeyStep(step) {
      OthersKeepKeys(s, step);
    }
  }

  lemma {:induction false} ServedStep(s: State, step: Step)
    requires Weak(s) && ServedInv(s) && Enabled(s, step)
    ensures ServedInv(Apply(s, step))
  {
    var t := Apply(s, step);
    forall n | n in t.nodes ensures ServedOk(t, t.nodes[n]) {
      if ServeStep(step) {
        NewlyServed(s, step, n);
        OthersKeepKeys(s, step);
      } else {
        OthersKeepMemory(s, step, n);
      }
      if n in s.nodes {
        assert ServedOk(s, s.nodes[n]);
        ServedStays(s, step, s.nodes[n]);
      }
    }
  }

  lemma {:induction false} InitIsCovered(s: State)
    requires Init(s)
    ensures RetiredInv(s) && ServedInv(s)
  {
  }

  lemma {:induction false} RunKeepsCoverage(states: seq<State>, steps: seq<Step>, i: nat)
    requires IsRun(states, steps) && TimeOrderlyRun(states, steps) && i < |states|
    ensures RetiredInv(states[i]) && ServedInv(states[i])
  {
    hide Apply, Enabled, TimeOrderly, Init, Weak, RetiredInv, ServedInv;
    if i == 0 {
      InitIsCovered(states[0]);
    } else {
      RunKeepsCoverage(states, steps, i - 1);
      RunKeepsWeak(states, steps, i - 1);
      var s, step := states[i - 1], steps[i - 1];
      assert states[i] == Apply(s, step) && TimeOrderly(s, step);
      RetiredStep(s, step);
      ServedStep(s, step);
    }
  }

  /** Every node still serving a retired key has had less than an interval to notice. */
  ghost predicate Prompt(s: State) {
    forall n :: n in s.nodes && s.nodes[n].mem.Some? && s.nodes[n].mem.value.key in s.retired ==>
      s.now <= s.retired[s.nodes[n].mem.value.key].at + s.interval
  }

  /** A refresh that succeeds once per interval is prompt. */
  lemma {:induction false} RefreshingIsPrompt(s: State)
    requires ServedInv(s) && Weak(s) && Refreshed(s)
    ensures Prompt(s)
  {
    forall n | n in s.nodes && s.nodes[n].mem.Some? && s.nodes[n].mem.value.key in s.retired
      ensures s.now <= s.retired[s.nodes[n].mem.value.key].at + s.interval
    {
      assert ServedOk(s, s.nodes[n]);
    }
  }

  /** The digests recordsForHost tells the operator to publish. */
  function Desired(s: State): seq<Key>
    requires s.live.Some?
  {
    DaneController.Desired(s.live.value, s.next, s.markers, s.now)
  }

  ghost predicate Covered(s: State, n: NodeId)
    requires n in s.nodes
  {
    s.nodes[n].mem.Some? ==> s.live.Some? && s.nodes[n].mem.value.key in Desired(s)
  }

  /**
   DANE coverage over whole runs, overlapping rotations included: at every instant every
   digest any node serves is among the records the operator is told to publish, if and only
   if the host has a live key. Without one nothing is to be published.
   */
  lemma {:induction false} ServedDigestsArePublished(states: seq<State>, steps: seq<Step>, i: nat, n: NodeId)
    requires IsRun(states, steps) && TimeOrderlyRun(states, steps) && i < |states|
    requires Prompt(states[i]) && n in states[i].nodes
    ensures Covered(states[i], n) <==> states[i].nodes[n].mem.None? || states[i].live.Some?
  {
    RunKeepsWeak(states, steps, i);
    RunKeepsCoverage(states, steps, i);
    var s := states[i];
    assert ServedOk(s, s.nodes[n]);
    if s.nodes[n].mem.Some? && s.live.Some? {
      var k := s.nodes[n].mem.value.key;
      DaneController.DesiredIsExact(s.live.value, s.next, s.markers, s.now);
      if k in s.retired && !Bound(s, k) {
        assert RetiredOk(s, k, s.retired[k]);
      }
    }
  }

  /** Every node that serves something took it over, or confirmed it, within the last interval. */
  ghost predicate Refreshed(s: State) {
    forall n :: n in s.nodes && s.nodes[n].mem.Some? ==> s.now <= s.nodes[n].refreshed + s.interval
  }

  /**
   Hence a cluster whose nodes refresh once per interval serves no digest that is not to be
   published, whatever else is interrupted, if and only if there is a live key or nothing is
   served.
   */
  lemma {:induction false} RefreshingNodesAreCovered(states: seq<State>, steps: seq<Step>, i: nat)
    requires IsRun(states, steps) && TimeOrderlyRun(states, steps) && i < |states| && Refreshed(states[i])
    ensures (forall n :: n in states[i].nodes ==> Covered(states[i], n)) <==>
            states[i].live.Some? || forall n :: n in states[i].nodes ==> states[i].nodes[n].mem.None?
  {
    hide IsRun, TimeOrderlyRun, Covered, Weak;
    RunKeepsWeak(states, steps, i);
    RunKeepsCoverage(states, steps, i);
    RefreshingIsPrompt(states[i]);
    forall n | n in states[i].nodes
      ensures Covered(states[i], n) <==> states[i].nodes[n].mem.None? || states[i].live.Some?
    {
      ServedDigestsArePublished(states, steps, i, n);
    }
  }

  /**
   The condition on promotions is exact. Right after a promotion, with nothing but time passing,
   a node that serves the outgoing key stays covered through the interval it has to
   refresh in if and only if the marker recorded for that key outlives the interval.
   */
  lemma {:induction false} MarkerMustOutliveTheInterval(s: State, n: NodeId, m: Marker)
    requires s.live.Some? && Distinct(s.markers) && m in s.markers
    requires n in s.nodes && s.nodes[n].mem.Some? && s.nodes[n].mem.value.key == m.digest && !Bound(s, m.digest)
    ensures (forall t :: s.now <= t <= s.now + s.interval ==> Covered(s.(now := t), n))
            <==> m.retireAfter > s.now + s.interval
  {
    forall t | s.now <= t <= s.now + s.interval ensures Covered(s.(now := t), n) <==> t < m.retireAfter {
      DaneController.DesiredIsExact(s.live.value, s.next, s.markers, t);
      forall m' | m' in s.markers && m'.digest == m.digest ensures m' == m {
      }
    }
    if m.retireAfter <= s.now + s.interval {
      assert !Covered(s.(now := s.now + s.interval), n);
    }
  }

  /* ------------------------------------------------- when promotions are timely */

  /** The digest that is live has no marker that counts. */
  predicate Unmarked(s: State) {
    s.live.Some? && forall m :: m in s.markers && m.digest == s.live.value ==> Expired(m, s.now)
  }

  lemma {:induction false} PromotingFrom(s: State, step: Step)
    requires Enabled(s, step) && Apply(s, step).op.Promoting?
    ensures || (step.MarkLive? && Apply(s, step).op.m == step.m && s.op.Marking? && s.live.Some?)
            || (s.op == Apply(s, step).op && !step.MarkLive?)
    ensures s.now <= Apply(s, step).now && Apply(s, step).soak == s.soak && Apply(s, step).interval == s.interval
  {
    MarkersFrom(s, step);
  }

  /** A promotion relies on the marker its last recording named. */
  lemma {:induction false} PromotingSince(states: seq<State>, steps: seq<Step>, i: nat, j: nat)
    requires IsRun(states, steps) && i < j < |states| && states[j].op.Promoting?
    requires steps[i].MarkLive? && forall k :: i < k < j ==> !steps[k].MarkLive?
    ensures states[j].op.m == steps[i].m
    ensures states[i].now <= states[j].now && states[j].soak == states[i].soak && states[j].interval == states[i].interval
  {
    hide Apply, Enabled, Init;
    assert states[j] == Apply(states[j - 1], steps[j - 1]);
    PromotingFrom(states[j - 1], steps[j - 1]);
    if j > i + 1 {
      PromotingSince(states, steps, i, j - 1);
    }
  }

  /**
   A promotion whose outgoing digest was not retiring already when it was recorded is timely
   if and only if it happens more than an interval before the end of the soak, counted from
   the recording.
   */
  lemma {:induction false} FreshMarkIsTimelyIff(states: seq<State>, steps: seq<Step>, i: nat, j: nat)
    requires IsRun(states, steps) && i < j < |steps| && steps[j].PutLive? && Staged(states[j])
    requires steps[i].MarkLive? && Unmarked(states[i]) && forall k :: i < k < j ==> !steps[k].MarkLive?
    ensures TimeOrderly(states[j], steps[j]) <==> states[j].now + states[j].interval < states[i].now + states[i].soak
  {
    assert Enabled(states[j], steps[j]) && Enabled(states[i], steps[i]);
    PromotingSince(states, steps, i, j);
    MarkedDeadline(states[i].markers, states[i].live.value, states[i].now, states[i].soak, steps[i].m);
  }

  /** Every promotion follows such a recording by less than an interval. */
  ghost predicate SwiftRun(states: seq<State>, steps: seq<Step>) {
    && |states| == |steps| + 1
    && forall j :: 0 <= j < |steps| && steps[j].PutLive? && Staged(states[j]) ==> exists i :: SwiftFrom(states, steps, i, j)
  }

  ghost predicate SwiftFrom(states: seq<State>, steps: seq<Step>, i: nat, j: nat)
    requires |states| == |steps| + 1 && j < |steps|
  {
    && i < j && steps[i].MarkLive? && Unmarked(states[i]) && (forall k :: i < k < j ==> !steps[k].MarkLive?)
    && states[j].now < states[i].now + states[i].interval
  }

  lemma {:induction false} SoakIsTwice(states: seq<State>, steps: seq<Step>, i: nat)
    requires IsRun(states, steps) && i < |states|
    ensures states[i].soak >= 2 * states[i].interval && states[i].interval > 0
  {
    if i > 0 {
      hide Apply, Enabled;
      SoakIsTwice(states, steps, i - 1);
      assert states[i] == Apply(states[i - 1], steps[i - 1]);
      MarkersFrom(states[i - 1], steps[i - 1]);
    }
  }

  /**
   Hence the soak is long enough: where every promotion follows its recording by less than an
   interval and nodes refresh once per interval, every digest served is among the records to
   publish as long as there is a live key.
   */
  lemma {:induction false} SwiftPromotionsAreCovered(states: seq<State>, steps: seq<Step>, i: nat, n: NodeId)
    requires IsRun(states, steps) && SwiftRun(states, steps) && i < |states|
    requires Refreshed(states[i]) && n in states[i].nodes && states[i].live.Some?
    ensures TimeOrderlyRun(states, steps) && Covered(states[i], n)
  {
    forall j | 0 <= j < |steps| ensures TimeOrderly(states[j], steps[j]) {
      if steps[j].PutLive? && Staged(states[j]) {
        var k: nat :| SwiftFrom(states, steps, k, j);
        SoakIsTwice(states, steps, k);
        SwiftIsTimely(states, steps, k, j);
      }
    }
    hide IsRun, Covered, SwiftRun;
    RefreshingNodesAreCovered(states, steps, i);
  }

  lemma {:induction false} SwiftIsTimely(states: seq<State>, steps: seq<Step>, i: nat, j: nat)
    requires IsRun(states, steps) && i < j < |steps| && steps[j].PutLive? && Staged(states[j])
    requires SwiftFrom(states, steps, i, j) && states[i].soak >= 2 * states[i].interval
    ensures TimeOrderly(states[j], steps[j])
  {
    hide Apply, Init;
    assert Enabled(states[j], steps[j]);
    PromotingSince(states, steps, i, j);
    FreshMarkIsTimelyIff(states, steps, i, j);
  }

  /** The machine's cleanup is the controller's: exactly the expired markers go. */
  lemma {:induction false} CleanIsTheMethods(s: State, t: int, m: Marker)
    requires t <= s.now
    ensures Apply(s, Step.Clean(t)).markers == DaneController.CleanOutcome(s.markers, t, false, Ok)
    ensures m in Apply(s, Step.Clean(t)).markers <==> m in s.markers && !Expired(m, t)
  {
    KeepMembers(s.markers, Unexpired(t), m);
  }
}
