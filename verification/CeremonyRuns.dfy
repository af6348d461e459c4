/**
 Runs of the ceremony's machine: recovery as steps, the one interrupted state that recovery
 does not clear, and what goes wrong when a side condition does not hold.
 */
module CeremonyRuns {
  import opened Common
  import opened Retiring
  import opened Ceremony
  import opened CeremonyChains
  import opened CeremonyCoverage
  import DaneController

  /** A run grows by any step its last state allows. */
  lemma {:induction false} Grow(states: seq<State>, steps: seq<Step>, step: Step)
    returns (states': seq<State>, steps': seq<Step>)
    requires IsRun(states, steps) && Enabled(Last(states), step)
    ensures IsRun(states', steps') && Last(states') == Apply(Last(states), step)
    ensures states <= states' && steps' == steps + [step]
  {
    hide Apply, Enabled, Init;
    states', steps' := states + [Apply(Last(states), step)], steps + [step];
    forall i | 0 <= i < |steps'|
      ensures Enabled(states'[i], steps'[i]) && states'[i + 1] == Apply(states'[i], steps'[i])
    {
      if i < |steps| {
        assert states'[i] == states[i] && steps'[i] == steps[i] && states'[i + 1] == states[i + 1];
      }
    }
  }

  /** The state after node n issues for the live key and storage takes the chain. */
  function Issued(s: State, n: NodeId, notAfter: int): State
    requires n in s.nodes && s.live.Some?
  {
    var c := Chain(s.live.value, notAfter);
    s.(chain := Some(c), lastIssued := notAfter, nodes := s.nodes[n := Node(Some(c), s.now, None)], op := NoOp)
  }

  lemma {:induction false} RunIssue(states: seq<State>, steps: seq<Step>, n: NodeId, notAfter: int)
    returns (states': seq<State>, steps': seq<Step>)
    requires IsRun(states, steps) && Enabled(Last(states), BeginRenew(n, false))
    ensures IsRun(states', steps') && states <= states' && steps <= steps'
    ensures Last(states') == Issued(Last(states), n, notAfter)
  {
    states', steps' := Grow(states, steps, BeginRenew(n, false));
    states', steps' := Grow(states', steps', Order(notAfter));
    states', steps' := Grow(states', steps', PutChain(Ok, false));
  }

  /** The state after node n issues for key k and storage refuses the chain. */
  function Held(s: State, n: NodeId, k: Key, notAfter: int): State
    requires n in s.nodes
  {
    var c := Chain(k, notAfter);
    s.(lastIssued := notAfter, nextFrom := if Staged(s) then notAfter else s.nextFrom,
       nodes := s.nodes[n := Node(Some(c), s.now, Some(c))], op := NoOp)
  }

  lemma {:induction false} RunIssueHeld(states: seq<State>, steps: seq<Step>, n: NodeId, forced: bool, notAfter: int)
    returns (states': seq<State>, steps': seq<Step>)
    requires IsRun(states, steps) && Enabled(Last(states), BeginRenew(n, forced))
    ensures IsRun(states', steps') && states <= states' && steps + [BeginRenew(n, forced)] <= steps'
    ensures Last(states') == Held(Last(states), n, Last(states).live.value, notAfter)
  {
    states', steps' := Grow(states, steps, BeginRenew(n, forced));
    states', steps' := Grow(states', steps', Order(notAfter));
    states', steps' := Grow(states', steps', PutChain(Lost, true));
  }

  /** Node n opens an activation and orders for the staged key. */
  lemma {:induction false} RunOrder(states: seq<State>, steps: seq<Step>, n: NodeId, notAfter: int)
    returns (states': seq<State>, steps': seq<Step>)
    requires IsRun(states, steps) && Enabled(Last(states), BeginActivate(n))
    requires Last(states).nodes[n].pending.None?
    ensures IsRun(states', steps') && states <= states' && steps + [BeginActivate(n)] <= steps'
    ensures var s := Last(states);
            Last(states') == s.(seen := s.seen + {s.next.value}, lastIssued := notAfter,
                                op := Putting(n, Chain(s.next.value, notAfter), 1, true))
  {
    states', steps' := Grow(states, steps, BeginActivate(n));
    states', steps' := Grow(states', steps', Gate(false, true));
    states', steps' := Grow(states', steps', Order(notAfter));
  }

  /** Two nodes serve key "a", key "b" is staged, nothing is held; the interval is ten seconds. */
  lemma {:induction false} StagedState() returns (states: seq<State>, steps: seq<Step>)
    ensures IsRun(states, steps)
    ensures var s := Last(states);
            && s.op.NoOp? && s.now == 0 && s.soak == 20 && s.interval == 10
            && s.live == Some("a") && s.next == Some("b") && s.chain == Some(Chain("a", 100))
            && s.markers == [] && s.nodes.Keys == {0, 1} && s.retired == map[]
            && (forall n :: n in s.nodes ==> s.nodes[n] == Node(Some(Chain("a", 100)), 0, None))
  {
    var blank := Node(None, 0, None);
    var s0 := State(0, 20, 10, None, None, None, [], map[0 := blank, 1 := blank], NoOp, {}, {}, map[], 0, 0, 0);
    states, steps := [s0], [];
    states, steps := Grow(states, steps, CreateLive("a"));
    states, steps := RunIssue(states, steps, 0, 100);
    states, steps := Grow(states, steps, Refresh(1));
    states, steps := Grow(states, steps, Stage("b"));
  }

  /** Key "b"'s chain is stored, and node 1 has not refreshed since. */
  predicate Activating(s: State) {
    && s.soak == 20 && s.interval == 10 && s.live == Some("a") && s.next == Some("b")
    && s.chain == Some(Chain("b", 200)) && s.nodes.Keys == {0, 1} && s.retired == map[]
    && s.nodes[1] == Node(Some(Chain("a", 100)), 0, None)
  }

  lemma {:induction false} StoredState() returns (states: seq<State>, steps: seq<Step>)
    ensures IsRun(states, steps)
    ensures Activating(Last(states)) && Last(states).op == Marking(0, "b") && Last(states).now == 0 && Last(states).markers == []
  {
    states, steps := StagedState();
    states, steps := RunOrder(states, steps, 0, 200);
    states, steps := Grow(states, steps, PutChain(Ok, false));
  }

  /** The same, with the outgoing digest recorded. */
  lemma {:induction false} MarkedState() returns (states: seq<State>, steps: seq<Step>)
    ensures IsRun(states, steps)
    ensures Activating(Last(states)) && Last(states).op == Promoting(0, "b", Marker("a", 20))
    ensures Last(states).now == 0 && Last(states).markers == [Marker("a", 20)]
  {
    states, steps := StoredState();
    assert MarkedList(Last(states)) == [Marker("a", 20)];
    states, steps := Grow(states, steps, MarkLive(Ok, Marker("a", 20)));
  }

  /**
   A promotion whose live-key write lands although it reports failure, or that stops before
   the staged copy is removed, leaves the live key in the staging slot.
   */
  lemma {:induction false} LeftoverIsReached() returns (states: seq<State>, steps: seq<Step>)
    ensures IsRun(states, steps)
    ensures Last(states).op.NoOp? && Last(states).live.Some? && Last(states).next == Last(states).live
  {
    states, steps := MarkedState();
    states, steps := Grow(states, steps, PutLive(LandedButFailed));
  }

  /**
   From such a state a replacement replaces nothing: staging finds the slot taken, and the
   whole activation ends with the same key live.
   */
  lemma {:induction false} LeftoverReplacesNothing(states: seq<State>, steps: seq<Step>, n: NodeId, k: Key, notAfter: int)
    returns (states': seq<State>, steps': seq<Step>)
    requires IsRun(states, steps)
    requires var s := Last(states);
             && s.op.NoOp? && s.live.Some? && s.next == s.live && s.soak > 0
             && n in s.nodes && s.nodes[n].pending.None?
    ensures !Enabled(Last(states), Stage(k))
    ensures IsRun(states', steps') && states <= states' && steps <= steps'
    ensures Last(states').op.NoOp? && Last(states').next.None? && Last(states').live == Last(states).live
    ensures Last(states').chain == Some(Chain(Last(states).live.value, notAfter))
  {
    states', steps' := RunOrder(states, steps, n, notAfter);
    states', steps' := Grow(states', steps', PutChain(Ok, false));
    states', steps' := RunPromoteSame(states', steps');
  }

  /** The promotion and the removal of the staged copy, no call failing. */
  lemma {:induction false} RunPromote(states: seq<State>, steps: seq<Step>)
    returns (states': seq<State>, steps': seq<Step>)
    requires IsRun(states, steps)
    requires Last(states).op.Promoting? && Last(states).live.Some? && Last(states).next.Some?
    ensures IsRun(states', steps') && states <= states' && steps <= steps'
    ensures Last(states') == Promoted(Last(states), Last(states).op.m).(next := None, op := NoOp)
  {
    states', steps' := Grow(states, steps, PutLive(Ok));
    states', steps' := Grow(states', steps', RemoveNext(Ok));
  }

  /** The tail of an activation whose staged key is already live. */
  lemma {:induction false} RunPromoteSame(states: seq<State>, steps: seq<Step>)
    returns (states': seq<State>, steps': seq<Step>)
    requires IsRun(states, steps)
    requires Last(states).op.Marking? && Last(states).live.Some? && Last(states).next == Last(states).live
    requires Last(states).soak > 0
    ensures IsRun(states', steps') && states <= states' && steps <= steps'
    ensures var s, s' := Last(states), Last(states');
            s'.op.NoOp? && s'.next.None? && s'.live == s.live && s'.chain == s.chain
  {
    var m := RecordedMarker(Last(states));
    states', steps' := Grow(states, steps, MarkLive(Ok, m));
    states', steps' := RunPromote(states', steps');
  }

  /** Node n's reconciliation, from the recording on, with no call failing. */
  lemma {:induction false} RunReconcile(states: seq<State>, steps: seq<Step>, n: NodeId, m: Marker)
    returns (states': seq<State>, steps': seq<Step>)
    requires IsRun(states, steps) && Enabled(Last(states), BeginReconcile(n))
    requires m in MarkedList(Last(states)) && m.digest == Last(states).live.value && !Expired(m, Last(states).now)
    ensures IsRun(states', steps') && states <= states' && steps <= steps'
    ensures var s := Last(states);
            Last(states') == s.(live := s.next, next := None, markers := MarkedList(s), liveFrom := s.nextFrom,
                                retired := s.retired[s.live.value := Retired(s.now, m)])
  {
    states', steps' := Grow(states, steps, BeginReconcile(n));
    states', steps' := Grow(states', steps', MarkLive(Ok, m));
    states', steps' := RunPromote(states', steps');
  }

  /** The recovery function is the machine's own steps, one after another. */
  lemma {:induction false} HealthyReconcileIsARun(states: seq<State>, steps: seq<Step>, n: NodeId)
    returns (states': seq<State>, steps': seq<Step>)
    requires IsRun(states, steps) && Enabled(Last(states), BeginReconcile(n)) && Last(states).soak > 0
    ensures IsRun(states', steps') && states <= states' && steps <= steps'
    ensures Last(states') == HealthyReconcile(Last(states), n)
  {
    states', steps' := RunReconcile(states, steps, n, RecordedMarker(Last(states)));
    states', steps' := Grow(states', steps', Refresh(n));
  }

  /**
   Staging does not ask for a live key. From every state that has a staged key and none live,
   an activation stores and serves its chain, cannot record an outgoing digest and ends: the
   node serves a digest nobody is told to publish.
   */
  lemma {:induction false} KeylessActivationUncovers(states: seq<State>, steps: seq<Step>, n: NodeId, notAfter: int)
    returns (states': seq<State>, steps': seq<Step>)
    requires IsRun(states, steps)
    requires var s := Last(states);
             s.op.NoOp? && s.live.None? && s.next.Some? && n in s.nodes && s.nodes[n].pending.None?
    ensures IsRun(states', steps') && states <= states'
    ensures steps' == steps + [BeginActivate(n), Gate(true, false), Order(notAfter), PutChain(Ok, false), Stop]
    ensures var s, c := Last(states), Some(Chain(Last(states).next.value, notAfter));
            Last(states') == s.(chain := c, lastIssued := notAfter, nodes := s.nodes[n := Node(c, s.now, None)])
    ensures !Covered(Last(states'), n)
  {
    states', steps' := Grow(states, steps, BeginActivate(n));
    states', steps' := Grow(states', steps', Gate(true, false));
    states', steps' := Grow(states', steps', Order(notAfter));
    states', steps' := RunStored(states', steps');
  }

  /** Such a run, timely and with every node that serves something refreshed. */
  lemma {:induction false} KeylessHostUncovers() returns (states: seq<State>, steps: seq<Step>)
    ensures IsRun(states, steps) && TimeOrderlyRun(states, steps) && Refreshed(Last(states))
    ensures 0 in Last(states).nodes && !Covered(Last(states), 0)
  {
    states, steps := [State(0, 20, 10, None, None, None, [], map[0 := Node(None, 0, None)], NoOp, {}, {}, map[], 0, 0, 0)], [];
    states, steps := Grow(states, steps, Stage("b"));
    states, steps := KeylessActivationUncovers(states, steps, 0, 200);
  }

  /** The ceremony was interrupted after its marker, whose soak has one second left. */
  lemma {:induction false} LateState() returns (states: seq<State>, steps: seq<Step>)
    ensures IsRun(states, steps)
    ensures Activating(Last(states)) && Last(states).op.NoOp? && Last(states).now == 19
    ensures Last(states).markers == [Marker("a", 20)] == MarkedList(Last(states))
  {
    states, steps := MarkedState();
    states, steps := Grow(states, steps, Stop);
    states, steps := Grow(states, steps, Tick(19));
    var m := Marker("a", 20);
    assert Keep(Last(states).markers, Unexpired(19)) == [m];
    assert [m][0] == m && HasDigest([m], "a");
  }

  /**
   Marking is idempotent by digest, so a ceremony interrupted after its marker and rolled
   forward near the end of the soak promotes against a marker about to expire. Node 1 then
   serves a digest nobody is told to publish, one second after its key retired.
   */
  lemma {:induction false} LateRollForwardUncovers() returns (states: seq<State>, steps: seq<Step>)
    ensures IsRun(states, steps)
    ensures Prompt(Last(states)) && 1 in Last(states).nodes && !Covered(Last(states), 1)
  {
    states, steps := LateState();
    states, steps := RunReconcile(states, steps, 0, Marker("a", 20));
    states, steps := Grow(states, steps, Tick(20));
    var t := Last(states);
    assert Distinct(t.markers) && t.markers[0] == Marker("a", 20);
    DaneController.DesiredIsExact("b", None, t.markers, 20);
  }

  /**
   A flush does not look at the key of the chain it writes. Once a chain for the staged key is
   stored, a newer chain held for the outgoing key is flushed over it after the promotion, and
   the stored chain is for neither key.
   */
  lemma {:induction false} HeldChainUnbinds(states: seq<State>, steps: seq<Step>, n: NodeId)
    returns (states': seq<State>, steps': seq<Step>)
    requires IsRun(states, steps)
    requires var s := Last(states);
             && s.op.NoOp? && Staged(s) && s.live.Some? && s.soak > 0
             && s.chain.Some? && s.next == Some(s.chain.value.key)
             && n in s.nodes && s.nodes[n].pending.Some? && Some(s.nodes[n].pending.value.key) == s.live
             && s.nodes[n].pending.value.notAfter > s.chain.value.notAfter
    ensures IsRun(states', steps') && states <= states' && steps <= steps'
    ensures Last(states').op.NoOp? && Last(states').chain.Some? && !Bound(Last(states'), Last(states').chain.value.key)
  {
    hide Apply, MarkedList;
    states', steps' := RunReconcile(states, steps, n, RecordedMarker(Last(states)));
    states', steps' := RunFlush(states', steps', n);
  }

  /**
   What the condition on renewals keeps out. From every state in which a chain for the staged
   key is stored, a forced renewal for the live key that storage then refuses can leave the
   stored chain bound to neither key. An automatic one is not started there.
   */
  lemma {:induction false} ForcedRenewalUnbinds(states: seq<State>, steps: seq<Step>, n: NodeId, notAfter: int)
    returns (states': seq<State>, steps': seq<Step>)
    requires IsRun(states, steps)
    requires var s := Last(states);
             && s.op.NoOp? && Staged(s) && s.live.Some? && s.soak > 0 && n in s.nodes
             && s.chain.Some? && s.next == Some(s.chain.value.key) && notAfter > s.chain.value.notAfter
    ensures !Enabled(Last(states), BeginRenew(n, false))
    ensures IsRun(states', steps') && states <= states' && steps + [BeginRenew(n, true)] <= steps'
    ensures Last(states').op.NoOp? && Last(states').chain.Some? && !Bound(Last(states'), Last(states').chain.value.key)
  {
    hide Apply;
    states', steps' := RunIssueHeld(states, steps, n, true, notAfter);
    states', steps' := HeldChainUnbinds(states', steps', n);
  }

  /**
   And from every state in which another node holds a chain for the staged key, newer than
   what is stored for the live one, an automatic renewal can lead there too.
   */
  lemma {:induction false} RenewalOverHeldUnbinds(states: seq<State>, steps: seq<Step>, n: NodeId, h: NodeId, notAfter: int)
    returns (states': seq<State>, steps': seq<Step>)
    requires IsRun(states, steps)
    requires var s := Last(states);
             && s.op.NoOp? && Staged(s) && s.live.Some? && s.soak > 0 && n in s.nodes && h != n
             && (s.chain.Some? ==> s.live == Some(s.chain.value.key))
             && HeldFor(s, h, s.next.value) && !Ahead(s, s.nodes[h].pending.value)
             && notAfter > s.nodes[h].pending.value.notAfter
    ensures IsRun(states', steps') && states <= states' && steps + [BeginRenew(n, false)] <= steps'
    ensures Last(states').op.NoOp? && Last(states').chain.Some? && !Bound(Last(states'), Last(states').chain.value.key)
  {
    hide Apply;
    states', steps' := RunIssueHeld(states, steps, n, false, notAfter);
    states', steps' := RunFlush(states', steps', h);
    states', steps' := HeldChainUnbinds(states', steps', n);
  }

  /**
   Nor may the CA's expiries go back: from every state in which a node holds a chain for the
   live key, an activation whose chain expires sooner can lead there as well.
   */
  lemma {:induction false} FallingExpiryUnbinds(states: seq<State>, steps: seq<Step>, n: NodeId, a: NodeId, notAfter: int)
    returns (states': seq<State>, steps': seq<Step>)
    requires IsRun(states, steps)
    requires var s := Last(states);
             && s.op.NoOp? && Staged(s) && s.live.Some? && s.soak > 0 && n != a
             && HeldFor(s, n, s.live.value) && a in s.nodes && s.nodes[a].pending.None?
             && notAfter < s.nodes[n].pending.value.notAfter
    ensures IsRun(states', steps') && states <= states' && steps + [BeginActivate(a)] <= steps'
    ensures Last(states').op.NoOp? && Last(states').chain.Some? && !Bound(Last(states'), Last(states').chain.value.key)
  {
    states', steps' := RunOrder(states, steps, a, notAfter);
    states', steps' := RunStored(states', steps');
    hide Apply;
    states', steps' := HeldChainUnbinds(states', steps', n);
  }

  /** The activation's chain is stored, and the activation interrupted there. */
  lemma {:induction false} RunStored(states: seq<State>, steps: seq<Step>)
    returns (states': seq<State>, steps': seq<Step>)
    requires IsRun(states, steps) && Last(states).op.Putting? && Last(states).op.n in Last(states).nodes
    ensures IsRun(states', steps') && states <= states' && steps' == steps + [PutChain(Ok, false), Stop]
    ensures var s := Last(states);
            Last(states') == s.(chain := Some(s.op.c), nodes := s.nodes[s.op.n := Node(Some(s.op.c), s.now, None)], op := NoOp)
  {
    states', steps' := Grow(states, steps, PutChain(Ok, false));
    states', steps' := Grow(states', steps', Stop);
  }

  /** A rerun activation uses the chain its node holds and does not order. */
  lemma {:induction false} HeldIsUsed(s: State, n: NodeId, notAfter: int)
    requires Enabled(s, BeginActivate(n)) && HeldFor(s, n, s.next.value)
    ensures var t := Apply(Apply(s, BeginActivate(n)), Gate(true, false));
            && Enabled(t, UseHeld) && !Enabled(t, Order(notAfter))
            && Apply(t, UseHeld).op == Putting(n, s.nodes[n].pending.value, 1, true)
  {
  }

  /** But what is held is held in memory: after a restart the same activation orders again. */
  lemma {:induction false} RestartOrdersAgain(states: seq<State>, steps: seq<Step>, n: NodeId, notAfter: int)
    returns (states': seq<State>, steps': seq<Step>)
    requires IsRun(states, steps) && Enabled(Last(states), BeginActivate(n))
    ensures IsRun(states', steps') && states <= states' && steps + [Restart(n)] <= steps'
    ensures Last(states').op == Putting(n, Chain(Last(states).next.value, notAfter), 1, true)
  {
    states', steps' := Grow(states, steps, Restart(n));
    states', steps' := RunOrder(states', steps', n, notAfter);
  }

  /** Such a run, from the start. */
  lemma {:induction false} HeldRenewalUnbinds() returns (states: seq<State>, steps: seq<Step>)
    ensures IsRun(states, steps)
    ensures var s := Last(states);
            s.op.NoOp? && s.chain.Some? && !Bound(s, s.chain.value.key)
  {
    states, steps := TwoHeld();
    states, steps := RunFlush(states, steps, 0);
    states, steps := HeldChainUnbinds(states, steps, 1);
  }

  /** Node 0 holds the ceremony's chain and node 1 a renewal ordered after it. */
  lemma {:induction false} TwoHeld() returns (states: seq<State>, steps: seq<Step>)
    ensures IsRun(states, steps)
    ensures var s := Last(states);
            && s.op.NoOp? && s.now == 0 && s.soak == 20 && s.live == Some("a") && s.next == Some("b")
            && s.chain == Some(Chain("a", 100)) && s.markers == [] && s.nodes.Keys == {0, 1}
            && s.nodes[0].pending == Some(Chain("b", 200)) && s.nodes[1].pending == Some(Chain("a", 300))
  {
    states, steps := StagedState();
    states, steps := RunOrder(states, steps, 0, 200);
    states, steps := Grow(states, steps, PutChain(Lost, true));
    states, steps := RunIssueHeld(states, steps, 1, false, 300);
  }

  /** Node n writes its held chain, which is newer than what storage has. */
  lemma {:induction false} RunFlush(states: seq<State>, steps: seq<Step>, n: NodeId)
    returns (states': seq<State>, steps': seq<Step>)
    requires IsRun(states, steps) && Enabled(Last(states), BeginFlush(n))
    requires !Ahead(Last(states), Last(states).nodes[n].pending.value)
    ensures IsRun(states', steps') && states <= states' && steps <= steps'
    ensures var s := Last(states);
            Last(states') == s.(chain := s.nodes[n].pending, nodes := s.nodes[n := s.nodes[n].(pending := None)])
  {
    states', steps' := Grow(states, steps, BeginFlush(n));
    states', steps' := Grow(states', steps', FlushPut(Ok));
  }

  /**
   Exactly when one flush unbinds the stored chain: the held chain is for neither key and
   storage is behind it.
   */
  lemma {:induction false} FlushUnbindsIff(s: State, n: NodeId)
    requires Enabled(s, BeginFlush(n)) && (s.chain.Some? ==> Bound(s, s.chain.value.key))
    ensures var t, p := HealthyFlush(s, n), s.nodes[n].pending.value;
            (t.chain.Some? && !Bound(t, t.chain.value.key)) <==> (!Bound(s, p.key) && !Ahead(s, p))
  {
  }
}
