/**
 The key-replacement ceremony of one DANE MX host (scheduler.go, dane_controller.go,
 keystore.go, cert_cache.go) as a state machine. Every storage write is one step and
 can be lost, land although it reports failure, or succeed; the operation in progress
 can stop before any of them; time, follower refreshes, marker cleanups and restarts
 interleave anywhere. Operations on the domain itself are serialized, as its lock and
 lease do. A key is known by its digest.
 */
module Ceremony {
  import opened Common
  import opened Retiring

  type Key = string
  type NodeId = nat

  /** A chain, known by the key of its leaf and its expiry. */
  datatype Chain = Chain(key: Key, notAfter: int)

  /** One node's memory: what it serves, since when that is known good, and what it holds unwritten. */
  datatype Node = Node(mem: Option<Chain>, refreshed: int, pending: Option<Chain>)

  /** The operation in progress on the domain, by what it is about to do. */
  datatype Op =
    | NoOp
    | Gating(n: NodeId, k: Key)
    | Ordering(n: NodeId, k: Key, activation: bool)
    | Putting(n: NodeId, c: Chain, attempt: nat, activation: bool)
    | Marking(n: NodeId, k: Key)
    | Promoting(n: NodeId, k: Key, m: Marker)
    | Removing(n: NodeId, k: Key)
    | Flushing(n: NodeId, p: Chain)

  /** When a key stopped being live, and the marker recorded for it first. */
  datatype Retired = Retired(at: int, marker: Marker)

  datatype State = State(
    now: int,
    soak: nat,
    interval: nat,
    live: Option<Key>,
    next: Option<Key>,
    chain: Option<Chain>,
    markers: seq<Marker>,
    nodes: map<NodeId, Node>,
    op: Op,
    /** Every key ever generated; staged keys whose digest DNS was seen to publish. */
    made: set<Key>,
    seen: set<Key>,
    retired: map<Key, Retired>,
    /**
     The expiry of the CA's latest chain, and a bound that separates the held chains of the
     live key from those before it, and those of the staged key from the live one's.
     */
    lastIssued: int,
    liveFrom: int,
    nextFrom: int)

  datatype Step =
    | Tick(to: int)
    | CreateLive(k: Key)
    | Stage(k: Key)
    | Refresh(n: NodeId)
    | Restart(n: NodeId)
    | Clean(t: int)
    | Stop
    | BeginActivate(n: NodeId)
    | Gate(force: bool, visible: bool)
    | UseHeld
    | Order(notAfter: int)
    | PutChain(w: Write, giveUp: bool)
    | MarkLive(w: Write, m: Marker)
    | PutLive(w: Write)
    | RemoveNext(w: Write)
    | BeginReconcile(n: NodeId)
    | BeginRenew(n: NodeId, forced: bool)
    | BeginFlush(n: NodeId)
    | FlushPut(w: Write)

  /** A key other than the live one is staged. */
  predicate Staged(s: State) {
    s.next.Some? && s.next != s.live
  }

  /** The ceremony, if any, has no chain but n's: none for the staged key is stored, or held elsewhere. */
  predicate Unchained(s: State, n: NodeId) {
    Staged(s) ==>
      && (s.chain.Some? ==> s.next != Some(s.chain.value.key))
      && forall h :: h in s.nodes && h != n ==> !HeldFor(s, h, s.next.value)
  }

  predicate HeldFor(s: State, n: NodeId, k: Key) {
    n in s.nodes && s.nodes[n].pending.Some? && s.nodes[n].pending.value.key == k
  }

  /** Storage holds a chain at least as new as p, as storedNotAfter reports it. */
  predicate Ahead(s: State, p: Chain) {
    s.chain.Some? && s.chain.value.notAfter >= p.notAfter
  }

  /** Refresh succeeds: the stored chain pairs with the live key. */
  predicate Loadable(s: State) {
    s.chain.Some? && s.live == Some(s.chain.value.key)
  }

  function Serve(s: State, n: NodeId, c: Chain): State
    requires n in s.nodes
  {
    s.(nodes := s.nodes[n := s.nodes[n].(mem := Some(c), refreshed := s.now)])
  }

  function SetPending(s: State, n: NodeId, p: Option<Chain>): State
    requires n in s.nodes
  {
    s.(nodes := s.nodes[n := s.nodes[n].(pending := p)])
  }

  function MarkedList(s: State): seq<Marker>
    requires s.live.Some?
  {
    Marked(s.markers, s.live.value, s.now, s.soak)
  }

  predicate Enabled(s: State, step: Step) {
    match step
    case Tick(to) => s.now <= to
    case CreateLive(k) => s.live.None? && k !in s.made && k != ""
    case Stage(k) => s.next.None? && k !in s.made && k != ""
    case Refresh(n) => n in s.nodes && Loadable(s)
    case Restart(n) => n in s.nodes
    case Clean(t) => t <= s.now
    case Stop => true
    case BeginActivate(n) => s.op.NoOp? && n in s.nodes && s.next.Some?
    case Gate(force, visible) => s.op.Gating? && (force || visible)
    case UseHeld => s.op.Ordering? && s.op.activation && HeldFor(s, s.op.n, s.op.k)
    case Order(_) => s.op.Ordering? && s.op.n in s.nodes && !(s.op.activation && HeldFor(s, s.op.n, s.op.k))
    case PutChain(_, _) => s.op.Putting? && s.op.n in s.nodes
    case MarkLive(_, m) =>
      && s.op.Marking? && s.live.Some?
      && m in MarkedList(s) && m.digest == s.live.value && !Expired(m, s.now)
    case PutLive(_) => s.op.Promoting? && s.next.Some? && s.live.Some?
    case RemoveNext(_) => s.op.Removing?
    case BeginReconcile(n) =>
      s.op.NoOp? && n in s.nodes && Staged(s) && s.live.Some? && s.chain.Some? && s.next == Some(s.chain.value.key)
    case BeginRenew(n, forced) =>
      && s.op.NoOp? && n in s.nodes && s.live.Some?
      && (!forced && s.chain.Some? ==> s.live == Some(s.chain.value.key))
    case BeginFlush(n) => s.op.NoOp? && n in s.nodes && s.nodes[n].pending.Some?
    case FlushPut(_) => s.op.Flushing? && s.op.n in s.nodes
  }

  /** The live slot takes the staged key; if that is a change, the outgoing key retires now. */
  function Promoted(s: State, m: Marker): State
    requires s.next.Some? && s.live.Some?
  {
    if s.next == s.live then s
    else s.(live := s.next, liveFrom := s.nextFrom, retired := s.retired[s.live.value := Retired(s.now, m)])
  }

  function Apply(s: State, step: Step): State
    requires Enabled(s, step)
  {
    match step
    case Tick(to) => s.(now := to)
    case CreateLive(k) =>
      s.(live := Some(k), made := s.made + {k}, liveFrom := if s.next.Some? then s.nextFrom else s.lastIssued)
    case Stage(k) => s.(next := Some(k), made := s.made + {k}, nextFrom := s.lastIssued)
    case Refresh(n) => Serve(s, n, s.chain.value)
    case Restart(n) =>
      s.(nodes := s.nodes[n := Node(None, s.now, None)], op := if s.op.NoOp? || s.op.n != n then s.op else NoOp)
    case Clean(t) => s.(markers := Cleaned(s.markers, t))
    case Stop => s.(op := NoOp)
    case BeginActivate(n) => s.(op := Gating(n, s.next.value))
    case Gate(_, visible) =>
      s.(op := Ordering(s.op.n, s.op.k, true), seen := if visible then s.seen + {s.op.k} else s.seen)
    case UseHeld => s.(op := Putting(s.op.n, s.nodes[s.op.n].pending.value, 1, true))
    case Order(notAfter) =>
      s.(op := Putting(s.op.n, Chain(s.op.k, notAfter), 1, s.op.activation), lastIssued := notAfter)
    case PutChain(w, giveUp) =>
      var op := s.op;
      var s1 := if w.Lost? then s else s.(chain := Some(op.c));
      if w.Ok? then
        SetPending(Serve(s1, op.n, op.c), op.n, None).(op := if op.activation then Marking(op.n, op.c.key) else NoOp)
      else if giveUp || op.attempt >= PERSIST_ATTEMPTS then
        SetPending(Serve(s1, op.n, op.c), op.n, Some(op.c))
        .(op := NoOp, nextFrom := if !op.activation && Staged(s) then op.c.notAfter else s.nextFrom)
      else s1.(op := op.(attempt := op.attempt + 1))
    case MarkLive(w, m) =>
      var s1 := if w.Lost? then s else s.(markers := MarkedList(s));
      if w.Ok? || MarkedList(s) == s.markers then s1.(op := Promoting(s.op.n, s.op.k, m)) else s1.(op := NoOp)
    case PutLive(w) =>
      var s1 := if w.Lost? then s else Promoted(s, s.op.m);
      s1.(op := if w.Ok? then Removing(s.op.n, s.op.k) else NoOp)
    case RemoveNext(w) => (if w.Lost? then s else s.(next := None)).(op := NoOp)
    case BeginReconcile(n) => s.(op := Marking(n, s.next.value))
    case BeginRenew(n, _) => s.(op := Ordering(n, s.live.value, false))
    case BeginFlush(n) =>
      var p := s.nodes[n].pending.value;
      if !Ahead(s, p) then s.(op := Flushing(n, p))
      else if Loadable(s) then SetPending(Serve(s, n, s.chain.value), n, None)
      else s
    case FlushPut(w) =>
      var s1 := if w.Lost? then s else s.(chain := Some(s.op.p));
      (if w.Ok? then SetPending(s1, s.op.n, None) else s1).(op := NoOp)
  }

  ghost predicate Init(s: State) {
    && s.live.None? && s.next.None? && s.chain.None? && s.markers == []
    && (forall n :: n in s.nodes ==> s.nodes[n].mem.None? && s.nodes[n].pending.None?)
    && s.op.NoOp? && s.made == {} && s.seen == {} && s.retired == map[]
    && s.soak >= 2 * s.interval && s.interval > 0 && s.liveFrom <= s.lastIssued
    && (forall n :: n in s.nodes ==> s.nodes[n].refreshed <= s.now)
  }

  ghost predicate IsRun(states: seq<State>, steps: seq<Step>) {
    && |states| == |steps| + 1 && Init(states[0])
    && forall i :: 0 <= i < |steps| ==> Enabled(states[i], steps[i]) && states[i + 1] == Apply(states[i], steps[i])
  }

  /**
   The side conditions on chains: the CA's expiries do not go back, and no renewal for the
   live key is started while a chain for the staged key is held by another node, or stored if
   it is forced.
   */
  predicate ChainOrderly(s: State, step: Step) {
    match step
    case Order(notAfter) => s.lastIssued <= notAfter
    case BeginRenew(n, _) => Unchained(s, n)
    case _ => true
  }

  /** The side condition on time: the marker a promotion relies on outlives the refresh interval that follows. */
  predicate TimeOrderly(s: State, step: Step) {
    step.PutLive? && s.op.Promoting? && Staged(s) ==> s.now + s.interval < s.op.m.retireAfter
  }

  ghost predicate ChainOrderlyRun(states: seq<State>, steps: seq<Step>) {
    |states| == |steps| + 1 && forall i :: 0 <= i < |steps| ==> ChainOrderly(states[i], steps[i])
  }

  ghost predicate TimeOrderlyRun(states: seq<State>, steps: seq<Step>) {
    |states| == |steps| + 1 && forall i :: 0 <= i < |steps| ==> TimeOrderly(states[i], steps[i])
  }

  /* --------------------------------------------------------- what every run keeps */

  predicate Bound(s: State, k: Key) {
    s.live == Some(k) || s.next == Some(k)
  }

  ghost predicate KeysInv(s: State) {
    && (s.live.Some? ==> s.live.value in s.made) && (s.next.Some? ==> s.next.value in s.made)
    && (forall k :: k in s.retired ==> k in s.made && !Bound(s, k))
  }

  /** Every chain anywhere is for a key that was made. */
  ghost predicate MadeInv(s: State) {
    && (s.chain.Some? ==> s.chain.value.key in s.made)
    && (forall n :: n in s.nodes && s.nodes[n].pending.Some? ==> s.nodes[n].pending.value.key in s.made)
    && (s.op.Flushing? ==> s.op.p.key in s.made)
  }

  /** The operation's key is in its slot, and what it has done so far stands. */
  ghost predicate OpInv(s: State) {
    match s.op
    case NoOp => true
    case Gating(_, k) => s.next == Some(k)
    case Ordering(_, k, activation) => if activation then s.next == Some(k) else s.live == Some(k)
    case Putting(_, c, _, activation) => if activation then s.next == Some(c.key) else s.live == Some(c.key)
    case Marking(_, k) => s.next == Some(k) && s.chain.Some? && s.chain.value.key == k
    case Promoting(_, k, m) =>
      && s.next == Some(k) && s.chain.Some? && s.chain.value.key == k && s.live.Some?
      && m.digest == s.live.value && (Expired(m, s.now) || m in s.markers)
    case Removing(_, k) => s.next == Some(k) && s.live == Some(k)
    case Flushing(_, _) => true
  }

  ghost predicate Weak(s: State) {
    KeysInv(s) && MadeInv(s) && OpInv(s)
  }

  /** A step that leaves the keys and the CA alone. */
  predicate SameKeys(s: State, t: State) {
    && s.live == t.live && s.next == t.next && s.made == t.made && s.retired == t.retired
    && s.liveFrom == t.liveFrom && s.lastIssued == t.lastIssued
  }

  predicate KeyStep(step: Step) {
    step.CreateLive? || step.Stage? || step.Order? || step.PutLive? || step.RemoveNext?
  }

  lemma {:induction false} OthersKeepKeys(s: State, step: Step)
    requires Enabled(s, step) && !KeyStep(step)
    ensures SameKeys(s, Apply(s, step)) && (!step.PutChain? ==> Apply(s, step).nextFrom == s.nextFrom)
    ensures s.chain.Some? ==> Apply(s, step).chain.Some?
  {
    match step {
      case PutChain(_, _) =>
      case MarkLive(_, _) =>
      case BeginFlush(_) =>
      case FlushPut(_) =>
      case _ =>
    }
  }

  lemma {:induction false} KeysStep(s: State, step: Step)
    requires Weak(s) && Enabled(s, step)
    ensures KeysInv(Apply(s, step))
  {
    if !KeyStep(step) {
      OthersKeepKeys(s, step);
    }
  }

  /** Every chain a step leaves in a node's hands was there, or in the operation's. */
  lemma {:induction false} PendingFrom(s: State, step: Step, n: NodeId)
    requires Enabled(s, step) && n in Apply(s, step).nodes && Apply(s, step).nodes[n].pending.Some?
    ensures var p := Apply(s, step).nodes[n].pending;
            (n in s.nodes && s.nodes[n].pending == p) || (s.op.Putting? && p == Some(s.op.c))
  {
  }

  lemma {:induction false} ChainFrom(s: State, step: Step)
    requires Enabled(s, step)
    ensures var t := Apply(s, step);
            || t.chain == s.chain
            || (step.PutChain? && t.chain == Some(s.op.c))
            || (step.FlushPut? && t.chain == Some(s.op.p))
    ensures s.made <= Apply(s, step).made
  {
  }

  lemma {:induction false} FlushFrom(s: State, step: Step)
    requires Enabled(s, step) && Apply(s, step).op.Flushing?
    ensures s.op == Apply(s, step).op || (step.BeginFlush? && HeldFor(s, step.n, Apply(s, step).op.p.key))
  {
  }

  lemma {:induction false} MadeStep(s: State, step: Step)
    requires Weak(s) && Enabled(s, step)
    ensures MadeInv(Apply(s, step))
  {
    var t := Apply(s, step);
    ChainFrom(s, step);
    if t.op.Flushing? {
      FlushFrom(s, step);
    }
    forall n | n in t.nodes && t.nodes[n].pending.Some? ensures t.nodes[n].pending.value.key in t.made {
      PendingFrom(s, step, n);
    }
  }

  /** The steps that end an operation's current call, or begin a flush. */
  predicate CallStep(step: Step) {
    step.PutChain? || step.MarkLive? || step.BeginFlush? || step.FlushPut? || step.UseHeld?
  }

  lemma {:induction false} OpKeyStep(s: State, step: Step)
    requires Weak(s) && Enabled(s, step) && KeyStep(step)
    ensures OpInv(Apply(s, step))
  {
  }

  lemma {:induction false} OpCallStep(s: State, step: Step)
    requires Weak(s) && Enabled(s, step) && CallStep(step)
    ensures OpInv(Apply(s, step))
  {
  }

  lemma {:induction false} OpOtherStep(s: State, step: Step)
    requires Weak(s) && Enabled(s, step) && !KeyStep(step) && !CallStep(step)
    ensures OpInv(Apply(s, step))
  {
    if step.Clean? && s.op.Promoting? {
      KeepMembers(s.markers, Unexpired(step.t), s.op.m);
    }
  }

  lemma {:induction false} OpStep(s: State, step: Step)
    requires Weak(s) && Enabled(s, step)
    ensures OpInv(Apply(s, step))
  {
    hide Weak, Enabled, Apply, OpInv;
    if KeyStep(step) {
      OpKeyStep(s, step);
    } else if CallStep(step) {
      OpCallStep(s, step);
    } else {
      OpOtherStep(s, step);
    }
  }

  lemma {:induction false} InitIsWeak(s: State)
    requires Init(s)
    ensures Weak(s)
  {
  }

  /** Keys, slots and the operation agree in every run whatever. */
  lemma {:induction false} RunKeepsWeak(states: seq<State>, steps: seq<Step>, i: nat)
    requires IsRun(states, steps) && i < |states|
    ensures Weak(states[i])
  {
    hide Apply, Enabled, Init, KeysInv, MadeInv, OpInv;
    if i == 0 {
      InitIsWeak(states[0]);
    } else {
      RunKeepsWeak(states, steps, i - 1);
      var s, step := states[i - 1], steps[i - 1];
      assert states[i] == Apply(s, step);
      KeysStep(s, step);
      MadeStep(s, step);
      OpStep(s, step);
    }
  }

  lemma {:induction false} MarkersFrom(s: State, step: Step)
    requires Enabled(s, step)
    ensures var t := Apply(s, step);
            && s.now <= t.now && t.soak == s.soak && t.interval == s.interval
            && (t.markers != s.markers ==>
                  || (step.Clean? && t.markers == Cleaned(s.markers, step.t))
                  || (step.MarkLive? && t.markers == MarkedList(s)))
  {
  }

  lemma {:induction false} SoakIsPositive(states: seq<State>, steps: seq<Step>, i: nat)
    requires IsRun(states, steps) && i < |states|
    ensures states[i].soak > 0
  {
    if i > 0 {
      hide Apply, Enabled;
      SoakIsPositive(states, steps, i - 1);
      assert states[i] == Apply(states[i - 1], steps[i - 1]);
      MarkersFrom(states[i - 1], steps[i - 1]);
    }
  }

  /** The marker the healthy recording leaves for the live digest. */
  ghost function RecordedMarker(s: State): (m: Marker)
    requires s.live.Some? && s.soak > 0
    ensures m in MarkedList(s) && m.digest == s.live.value && !Expired(m, s.now)
  {
    MarkedListsDigest(s.markers, s.live.value, s.now, s.soak);
    var m :| m in MarkedList(s) && m.digest == s.live.value && !Expired(m, s.now);
    m
  }

  /* ------------------------------------------------------------ the live key */

  /** The live key changes only from none, or by promotion of the staged key. */
  lemma {:induction false} LiveChangesByPromotion(s: State, step: Step)
    requires Weak(s) && Enabled(s, step) && Apply(s, step).live != s.live
    ensures s.live.None? || (step.PutLive? && Apply(s, step).live == s.next)
    ensures step.PutLive? ==> s.chain.Some? && s.next == Some(s.chain.value.key)
  {
  }

  /** A renewal is writing the chain it obtained. */
  predicate Renewing(s: State, step: Step) {
    step.PutChain? && s.op.Putting? && !s.op.activation
  }

  /**
   Renewals reuse the key: in every run, from the moment there is a live key and through any
   number of renewals, refreshes, restarts and interrupted ceremonies, it stays the same until
   a promotion, and every chain a renewal writes meanwhile is for it.
   */
  lemma {:induction false} KeyIsConstantBetweenPromotions(states: seq<State>, steps: seq<Step>, i: nat, j: nat)
    requires IsRun(states, steps) && i <= j < |states| && states[i].live.Some?
    requires forall k :: i <= k < j ==> !steps[k].PutLive?
    ensures states[j].live == states[i].live
    ensures forall k :: i <= k < j && Renewing(states[k], steps[k]) ==> Some(states[k].op.c.key) == states[i].live
  {
    hide Apply, Enabled, Init, KeysInv, MadeInv;
    if i < j {
      KeyIsConstantBetweenPromotions(states, steps, i, j - 1);
      RunKeepsWeak(states, steps, j - 1);
      assert states[j] == Apply(states[j - 1], steps[j - 1]);
      if states[j].live != states[j - 1].live {
        LiveChangesByPromotion(states[j - 1], steps[j - 1]);
      }
    }
  }
}
