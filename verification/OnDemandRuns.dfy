/**
 One follower and the on-demand index, over runs (ondemand.go, scheduler.go). Any number of
 nodes may believe to lead, each with its own memory and index. Storing a chain, recording it
 in a leader's index and publishing that index are separate steps, and a publication may be
 late or never come. A pass reads the index, then for each host it
 offers reads the chain and the index once more; anything may happen in between.
 */
module OnDemandRuns {
  import opened Common
  import opened OnDemandIndex

  /** Where the follower's pass is: the hosts still to refresh, and the one refreshed but not noted. */
  datatype Phase = Idle | Passing(todo: set<Host>) | Loaded(h: Host, todo: set<Host>)

  type NodeId = nat

  /** A node that believes to lead: what it serves and what it would publish. */
  datatype Leader = Leader(mem: map<Host, Chain>, index: Index)

  /** Storage, the leaders, the published index, and the follower. */
  datatype State = State(
    chains: map<Host, Chain>, leads: map<NodeId, Leader>, published: Option<Index>,
    mem: map<Host, Chain>, index: Index, phase: Phase)

  /**
   `Elect` is a node that starts to lead and reads the published index, `Adopt` a leader's
   refresh of one host, `Load` a handshake for a host the follower has nothing for. The two
   prunes drop hosts that left the allow-set.
   */
  datatype Step =
    | Elect(l: NodeId)
    | Put(l: NodeId, h: Host, c: Chain)
    | Adopt(l: NodeId, h: Host)
    | Record(l: NodeId, h: Host)
    | Publish(l: NodeId)
    | LeaderPrune(l: NodeId, allowed: set<Host>)
    | Begin(hosts: set<Host>, fails: bool)
    | Refresh(h: Host, fails: bool)
    | Note(fails: bool)
    | End
    | Load(h: Host)
    | Prune(allowed: set<Host>)
    | Restart

  function Announced(s: State, h: Host): int {
    if s.published.Some? then Entry(s.published.value, h) else 0
  }

  function Pruned(index: Index, allowed: set<Host>): Index {
    map h | h in index && h in allowed :: index[h]
  }

  predicate Enabled(s: State, step: Step) {
    match step
    case Put(l, _, _) => l in s.leads
    case Adopt(l, h) => l in s.leads && h in s.chains
    case Record(l, h) => l in s.leads && h in s.leads[l].mem
    case Publish(l) => l in s.leads
    case LeaderPrune(l, _) => l in s.leads
    case Begin(_, _) => s.phase.Idle?
    case Refresh(h, _) => s.phase.Passing? && h in s.phase.todo
    case Note(_) => s.phase.Loaded?
    case End => s.phase.Passing?
    case Load(h) => h in s.chains && h !in s.mem
    case _ => true
  }

  function SetLeader(s: State, l: NodeId, v: Leader): State {
    s.(leads := s.leads[l := v])
  }

  function Apply(s: State, step: Step): State
    requires Enabled(s, step)
  {
    match step
    case Elect(l) => SetLeader(s, l, Leader(map[], if s.published.Some? then s.published.value else map[]))
    case Put(l, h, c) =>
      SetLeader(s.(chains := s.chains[h := c]), l, s.leads[l].(mem := s.leads[l].mem[h := c]))
    case Adopt(l, h) => SetLeader(s, l, s.leads[l].(mem := s.leads[l].mem[h := s.chains[h]]))
    case Record(l, h) => SetLeader(s, l, s.leads[l].(index := s.leads[l].index[h := s.leads[l].mem[h].notAfter]))
    case Publish(l) => s.(published := Some(s.leads[l].index))
    case LeaderPrune(l, allowed) => SetLeader(s, l, s.leads[l].(index := Pruned(s.leads[l].index, allowed)))
    case Begin(hosts, fails) => s.(phase := Passing(set h | h in hosts && Offered(s.published, s.index, h, fails)))
    case Refresh(h, fails) =>
      var todo := s.phase.todo - {h};
      if Loads(s.chains, h, fails) then s.(mem := s.mem[h := s.chains[h]], phase := Loaded(h, todo))
      else s.(phase := Passing(todo))
    case Note(fails) =>
      s.(index := if fails || s.published.None? then s.index else s.index[s.phase.h := Announced(s, s.phase.h)],
         phase := Passing(s.phase.todo))
    case End => s.(phase := Idle)
    case Load(h) => s.(mem := s.mem[h := s.chains[h]])
    case Prune(allowed) => s.(index := Pruned(s.index, allowed))
    case Restart => s.(mem := map[], index := map[], phase := Idle)
  }

  const START: State := State(map[], map[], None, map[], map[], Idle)

  ghost predicate IsRun(states: seq<State>, steps: seq<Step>) {
    && |states| == |steps| + 1 && states[0] == START
    && forall i :: 0 <= i < |steps| ==> Enabled(states[i], steps[i]) && states[i + 1] == Apply(states[i], steps[i])
  }

  /** The first side condition: a host's next chain does not expire before the one it replaces. */
  predicate Steady(s: State, step: Step) {
    step.Put? ==> step.c.notAfter > 0 && (step.h in s.chains ==> step.c.notAfter >= s.chains[step.h].notAfter)
  }

  /** The second: nothing later is announced for a host between its refresh and its note. */
  predicate Undisturbed(s: State, step: Step) {
    step.Publish? && step.l in s.leads && s.phase.Loaded? && s.phase.h in s.mem ==>
      Entry(s.leads[step.l].index, s.phase.h) <= s.mem[s.phase.h].notAfter
  }

  /** The third, where a chain is told from another by its expiry alone: the next one expires later. */
  predicate Rising(s: State, step: Step) {
    step.Put? && step.h in s.chains ==> step.c.notAfter > s.chains[step.h].notAfter
  }

  ghost predicate SteadyRun(states: seq<State>, steps: seq<Step>) {
    |states| == |steps| + 1 && forall i :: 0 <= i < |steps| ==> Steady(states[i], steps[i])
  }

  ghost predicate OrderlyRun(states: seq<State>, steps: seq<Step>) {
    SteadyRun(states, steps) && forall i :: 0 <= i < |steps| ==> Undisturbed(states[i], steps[i])
  }

  ghost predicate RisingRun(states: seq<State>, steps: seq<Step>) {
    |states| == |steps| + 1 && forall i :: 0 <= i < |steps| ==> Rising(states[i], steps[i])
  }

  /* ------------------------------------------------------------- invariants */

  /** An index names nothing storage does not have, or later than it has. */
  predicate Truthful(index: Index, chains: map<Host, Chain>, h: Host) {
    Entry(index, h) != 0 ==> h in chains && 0 < Entry(index, h) <= chains[h].notAfter
  }

  /** Nor does a memory hold anything later. */
  predicate Bounded(mem: map<Host, Chain>, chains: map<Host, Chain>, h: Host) {
    h in mem ==> h in chains && 0 < mem[h].notAfter <= chains[h].notAfter
  }

  /** Neither is a leader ahead of storage... */
  predicate LeadersBehind(s: State, h: Host) {
    forall l :: l in s.leads ==> LeaderBehind(s.leads[l], s.chains, h)
  }

  /** ...nor is what was published, nor the follower. */
  predicate Behind(s: State, h: Host) {
    && LeadersBehind(s, h)
    && (h in s.chains ==> s.chains[h].notAfter > 0)
    && (s.published.Some? ==> Truthful(s.published.value, s.chains, h))
    && Bounded(s.mem, s.chains, h)
    && (s.phase.Loaded? ==> s.phase.h in s.mem)
  }

  /** Memory is not behind what was recorded as seen. */
  predicate Tracks(s: State, h: Host) {
    && (Entry(s.index, h) != 0 ==> h in s.mem && s.mem[h].notAfter >= Entry(s.index, h))
    && (s.phase.Loaded? && s.phase.h == h && h in s.mem ==> Announced(s, h) <= s.mem[h].notAfter)
  }

  /** An expiry tells which chain it is. */
  predicate Told(s: State, h: Host) {
    h in s.mem && h in s.chains && s.mem[h].notAfter == s.chains[h].notAfter ==> s.mem[h] == s.chains[h]
  }

  predicate LeaderBehind(v: Leader, chains: map<Host, Chain>, h: Host) {
    Truthful(v.index, chains, h) && Bounded(v.mem, chains, h)
  }

  /** A step changes one leader at most, and stores nothing older. */
  lemma {:induction false} LeaderStep(s: State, step: Step, h: Host, l: NodeId)
    requires Behind(s, h) && Enabled(s, step) && Steady(s, step) && l in Apply(s, step).leads
    ensures LeaderBehind(Apply(s, step).leads[l], Apply(s, step).chains, h)
  {
    assert l in s.leads ==> LeaderBehind(s.leads[l], s.chains, h);
    hide LeadersBehind;
  }

  lemma {:induction false} LeadersStep(s: State, step: Step, h: Host)
    requires Behind(s, h) && Enabled(s, step) && Steady(s, step)
    ensures LeadersBehind(Apply(s, step), h)
  {
    hide Apply, Enabled, Behind, Steady;
    forall l | l in Apply(s, step).leads
      ensures LeaderBehind(Apply(s, step).leads[l], Apply(s, step).chains, h)
    {
      LeaderStep(s, step, h, l);
    }
  }

  lemma {:induction false} BehindStep(s: State, step: Step, h: Host)
    requires Behind(s, h) && Enabled(s, step) && Steady(s, step)
    ensures Behind(Apply(s, step), h)
  {
    LeadersStep(s, step, h);
    assert step.Publish? ==> LeaderBehind(s.leads[step.l], s.chains, h);
    hide LeadersBehind;
  }

  lemma {:induction false} TracksStep(s: State, step: Step, h: Host)
    requires Behind(s, h) && Tracks(s, h) && Enabled(s, step) && Undisturbed(s, step)
    ensures Tracks(Apply(s, step), h)
  {
  }

  lemma {:induction false} ToldStep(s: State, step: Step, h: Host)
    requires Behind(s, h) && Told(s, h) && Enabled(s, step) && Rising(s, step)
    ensures Told(Apply(s, step), h)
  {
  }

  lemma {:induction false} StartIsBehind(h: Host)
    ensures Behind(START, h) && Tracks(START, h) && Told(START, h)
  {
  }

  lemma {:induction false} RunBehind(states: seq<State>, steps: seq<Step>, i: nat, h: Host)
    requires IsRun(states, steps) && SteadyRun(states, steps) && i < |states|
    ensures Behind(states[i], h)
  {
    hide Apply, Enabled, Steady, Behind;
    if i == 0 {
      StartIsBehind(h);
    } else {
      RunBehind(states, steps, i - 1, h);
      assert states[i] == Apply(states[i - 1], steps[i - 1]);
      BehindStep(states[i - 1], steps[i - 1], h);
    }
  }

  lemma {:induction false} RunTracks(states: seq<State>, steps: seq<Step>, i: nat, h: Host)
    requires IsRun(states, steps) && OrderlyRun(states, steps) && i < |states|
    ensures Behind(states[i], h) && Tracks(states[i], h)
  {
    hide Apply, Enabled, Steady, Undisturbed, Behind, Tracks;
    RunBehind(states, steps, i, h);
    if i == 0 {
      StartIsBehind(h);
    } else {
      RunTracks(states, steps, i - 1, h);
      assert states[i] == Apply(states[i - 1], steps[i - 1]);
      TracksStep(states[i - 1], steps[i - 1], h);
    }
  }

  lemma {:induction false} RunTold(states: seq<State>, steps: seq<Step>, i: nat, h: Host)
    requires IsRun(states, steps) && SteadyRun(states, steps) && RisingRun(states, steps) && i < |states|
    ensures Told(states[i], h)
  {
    hide Apply, Enabled, Steady, Rising, Behind, Told;
    if i == 0 {
      StartIsBehind(h);
    } else {
      RunTold(states, steps, i - 1, h);
      RunBehind(states, steps, i - 1, h);
      assert states[i] == Apply(states[i - 1], steps[i - 1]);
      ToldStep(states[i - 1], steps[i - 1], h);
    }
  }

  /* --------------------------------------------------------- what the diff misses */

  /** The published entry describes what storage holds for h. */
  predicate Described(s: State, h: Host) {
    s.published.Some? && DescribedAt(s.published.value, s.chains, h)
  }

  /**
   Where the index describes storage the diff is a comparison of expiries: a host noted at the
   expiry it was loaded with is offered exactly when storage has another.
   */
  lemma {:induction false} OfferedIffExpiryDiffers(s: State, h: Host)
    requires Described(s, h) && h in s.mem && h in s.chains && Entry(s.index, h) == s.mem[h].notAfter
    ensures Offered(s.published, s.index, h, false) <==> s.chains[h].notAfter != s.mem[h].notAfter
  {
  }

  /**
   A host the diff does not offer has the stored expiry, in every orderly run and at every
   moment at which the published entry describes storage.
   */
  lemma {:induction false} NotOfferedHasTheExpiry(states: seq<State>, steps: seq<Step>, i: nat, h: Host)
    requires IsRun(states, steps) && OrderlyRun(states, steps) && i < |states|
    requires Described(states[i], h) && !Offered(states[i].published, states[i].index, h, false)
    requires h in states[i].chains
    ensures h in states[i].mem && states[i].mem[h].notAfter == states[i].chains[h].notAfter
  {
    RunTracks(states, steps, i, h);
  }

  /** The last chain stored for h by a step after i and before k, if any. */
  ghost function LastPut(steps: seq<Step>, i: nat, k: nat, h: Host): Option<Chain>
    requires k <= |steps|
  {
    if k <= i + 1 then None
    else if steps[k - 1].Put? && steps[k - 1].h == h then Some(steps[k - 1].c)
    else LastPut(steps, i, k - 1, h)
  }

  /** Step i puts the stored chain of h into the follower's memory. */
  predicate LoadsAt(s: State, step: Step, h: Host) {
    h in s.chains && (step == Refresh(h, false) || step == Load(h))
  }

  lemma {:induction false} LoadedSince(states: seq<State>, steps: seq<Step>, i: nat, k: nat, h: Host)
    requires IsRun(states, steps) && i < k < |states| && LoadsAt(states[i], steps[i], h)
    requires forall m :: i < m < k ==> !steps[m].Restart? && steps[m] != Refresh(h, false)
    ensures h in states[k].mem && states[k].mem[h] == states[i].chains[h]
    ensures h in states[k].chains
    ensures states[k].chains[h] == if LastPut(steps, i, k, h).Some? then LastPut(steps, i, k, h).value else states[i].chains[h]
  {
    assert Enabled(states[k - 1], steps[k - 1]) && states[k] == Apply(states[k - 1], steps[k - 1]);
    if k > i + 1 {
      LoadedSince(states, steps, i, k - 1, h);
    }
  }

  /**
   Chains of one expiry. A host that was loaded at i and is not offered at k although the
   index describes storage has the stored expiry, and is up to date exactly when the last
   chain stored for it since, if any, is the one it has.
   */
  lemma {:induction false} MissedIff(states: seq<State>, steps: seq<Step>, i: nat, k: nat, h: Host)
    requires IsRun(states, steps) && OrderlyRun(states, steps) && i < k < |states| && LoadsAt(states[i], steps[i], h)
    requires forall m :: i < m < k ==> !steps[m].Restart? && steps[m] != Refresh(h, false)
    requires Described(states[k], h) && !Offered(states[k].published, states[k].index, h, false)
    ensures h in states[k].mem && h in states[k].chains && states[k].mem[h].notAfter == states[k].chains[h].notAfter
    ensures states[k].mem[h] == states[k].chains[h] <==>
            LastPut(steps, i, k, h).None? || LastPut(steps, i, k, h).value == states[i].chains[h]
  {
    LoadedSince(states, steps, i, k, h);
    NotOfferedHasTheExpiry(states, steps, k, h);
  }

  /**
   Where a host's chains expire one after another, a host the diff does not offer while the
   published entry describes storage is up to date.
   */
  lemma {:induction false} NotOfferedIsCurrent(states: seq<State>, steps: seq<Step>, i: nat, h: Host)
    requires IsRun(states, steps) && OrderlyRun(states, steps) && RisingRun(states, steps) && i < |states|
    requires Described(states[i], h) && !Offered(states[i].published, states[i].index, h, false)
    ensures h in states[i].chains ==> Held(states[i].mem, h) == Held(states[i].chains, h)
  {
    if h in states[i].chains {
      NotOfferedHasTheExpiry(states, steps, i, h);
      RunTold(states, steps, i, h);
    }
  }

  /**
   And for a host noted at the expiry it was loaded with that is exact: not offered, it is up
   to date if and only if the published entry describes storage.
   */
  lemma {:induction false} NotOfferedIsCurrentIff(states: seq<State>, steps: seq<Step>, i: nat, h: Host)
    requires IsRun(states, steps) && OrderlyRun(states, steps) && RisingRun(states, steps) && i < |states|
    requires states[i].published.Some? && !Offered(states[i].published, states[i].index, h, false)
    requires h in states[i].mem && Entry(states[i].index, h) == states[i].mem[h].notAfter
    ensures Held(states[i].mem, h) == Held(states[i].chains, h) <==> Described(states[i], h)
  {
    RunTracks(states, steps, i, h);
    RunTold(states, steps, i, h);
  }

  /**
   Republishing what a leader recorded repairs a lost publication: the host is then up to
   date, or offered.
   */
  lemma {:induction false} RepublicationHeals(states: seq<State>, steps: seq<Step>, i: nat, h: Host)
    requires IsRun(states, steps) && OrderlyRun(states, steps) && RisingRun(states, steps)
    requires i < |steps| && steps[i].Publish? && steps[i].l in states[i].leads
    requires h in states[i].chains && DescribedAt(states[i].leads[steps[i].l].index, states[i].chains, h)
    ensures var t := states[i + 1];
            Held(t.mem, h) == Held(t.chains, h) || Offered(t.published, t.index, h, false)
  {
    assert Enabled(states[i], steps[i]) && states[i + 1] == Apply(states[i], steps[i]);
    if !Offered(states[i + 1].published, states[i + 1].index, h, false) {
      NotOfferedIsCurrent(states, steps, i + 1, h);
    }
  }

  /* ---------------------------------------------------- leaders and the allow-set */

  /**
   A node that starts to lead carries the published index on: whatever it stores and
   publishes first, the entries of all other hosts stay.
   */
  lemma {:induction false} NewLeaderKeepsTheIndex(s: State, l: NodeId, h: Host, c: Chain, other: Host)
    requires other != h
    ensures var s1 := Apply(s, Elect(l));
            var s2 := Apply(s1, Put(l, h, c));
            var t := Apply(Apply(s2, Record(l, h)), Publish(l));
            Announced(t, other) == Announced(s, other) && Announced(t, h) == c.notAfter && Described(t, h)
  {
  }

  /** A leader that finds a chain in storage and announces it describes storage. */
  lemma {:induction false} AdoptedIsAnnounced(s: State, l: NodeId, h: Host)
    requires l in s.leads && h in s.chains
    ensures var s1 := Apply(s, Adopt(l, h));
            var t := Apply(Apply(s1, Record(l, h)), Publish(l));
            Described(t, h)
  {
  }

  /** What has left the allow-set is forgotten, on either side, and what has not is kept. */
  lemma {:induction false} PrunedIsForgotten(s: State, l: NodeId, allowed: set<Host>, h: Host)
    requires l in s.leads
    ensures Entry(Apply(s, Prune(allowed)).index, h) == if h in allowed then Entry(s.index, h) else 0
    ensures h !in allowed && Announced(s, h) != 0 ==> Offered(s.published, Apply(s, Prune(allowed)).index, h, false)
    ensures var t := Apply(Apply(s, LeaderPrune(l, allowed)), Publish(l));
            Announced(t, h) == if h in allowed then Entry(s.leads[l].index, h) else 0
  {
  }

  /** A follower that restarts has nothing and is offered everything that is announced. */
  lemma {:induction false} RestartIsOfferedAll(s: State, h: Host)
    ensures var t := Apply(s, Restart);
            t.phase.Idle? && h !in t.mem && (Announced(s, h) != 0 ==> Offered(t.published, t.index, h, false))
  {
  }

  /* ------------------------------------------------------------- whole passes */

  function Todo(p: Phase): set<Host> {
    if p.Idle? then {} else p.todo
  }

  /** A step of the pass itself, or of a leader, that stores nothing new. */
  predicate Quiet(step: Step) {
    step.Refresh? || step.Note? || step.Adopt? || step.Record? || step.Elect? || step.LeaderPrune? || step.Publish?
  }

  /** The steps i + 1 to k - 1 are quiet, and their reads fail as `f` says. */
  ghost predicate PassWindow(states: seq<State>, steps: seq<Step>, i: nat, k: nat, f: PassFaults)
    requires |states| == |steps| + 1 && i < k < |states|
  {
    forall m :: i < m < k ==>
      && Quiet(steps[m])
      && (steps[m].Refresh? ==> steps[m].fails == f.refresh(steps[m].h))
      && (steps[m].Note? && states[m].phase.Loaded? ==> steps[m].fails == f.note(states[m].phase.h))
  }

  ghost function OfferedIn(s: State, hosts: set<Host>, fails: bool): iset<Host> {
    iset h | h in hosts && Offered(s.published, s.index, h, fails)
  }

  /** Memory and the phase in the middle of such a pass. */
  ghost predicate MidPass(s: State, t: State, offered: iset<Host>, f: PassFaults, h: Host) {
    && t.chains == s.chains && !t.phase.Idle? && (h in Todo(t.phase) ==> h in offered)
    && Held(t.mem, h) == (if h in offered && h !in Todo(t.phase) && Loads(s.chains, h, f.refresh(h))
                          then Some(s.chains[h]) else Held(s.mem, h))
  }

  lemma {:induction false} MidPassStep(s: State, t: State, step: Step, offered: iset<Host>, f: PassFaults, h: Host)
    requires MidPass(s, t, offered, f, h) && Enabled(t, step) && Quiet(step)
    requires step.Refresh? ==> step.fails == f.refresh(step.h)
    ensures MidPass(s, Apply(t, step), offered, f, h)
  {
  }

  lemma {:induction false} MidPassBegin(s: State, step: Step, f: PassFaults, h: Host)
    requires Enabled(s, step) && step.Begin?
    ensures MidPass(s, Apply(s, step), OfferedIn(s, step.hosts, step.fails), f, h)
    ensures MidIndex(s, Apply(s, step), OfferedIn(s, step.hosts, step.fails), f, h)
  {
  }

  lemma {:induction false} PassSoFar(states: seq<State>, steps: seq<Step>, i: nat, k: nat, f: PassFaults, h: Host)
    requires IsRun(states, steps) && i < k < |states|
    requires steps[i].Begin? && PassWindow(states, steps, i, k, f)
    ensures MidPass(states[i], states[k], OfferedIn(states[i], steps[i].hosts, steps[i].fails), f, h)
  {
    hide Apply, Enabled, MidPass, Quiet, OfferedIn;
    if k == i + 1 {
      assert Enabled(states[i], steps[i]) && states[k] == Apply(states[i], steps[i]);
      MidPassBegin(states[i], steps[i], f, h);
    } else {
      PassSoFar(states, steps, i, k - 1, f, h);
      assert states[k] == Apply(states[k - 1], steps[k - 1]) && Quiet(steps[k - 1]);
      MidPassStep(states[i], states[k - 1], steps[k - 1], OfferedIn(states[i], steps[i].hosts, steps[i].fails), f, h);
    }
  }

  /** The pass that began at i has refreshed everything it offered by k. */
  ghost predicate CompletePass(states: seq<State>, steps: seq<Step>, i: nat, k: nat, f: PassFaults)
    requires |states| == |steps| + 1
  {
    && i < k < |states| && steps[i].Begin? && steps[i].fails == f.index && PassWindow(states, steps, i, k, f)
    && states[k].phase == Passing({})
  }

  /** A complete pass leaves the memory the follower's method is specified to leave. */
  lemma {:induction false} PassIsTheMethods(states: seq<State>, steps: seq<Step>, i: nat, k: nat, f: PassFaults)
    requires IsRun(states, steps) && CompletePass(states, steps, i, k, f)
    ensures states[k].mem == PassMemory(states[i].mem, states[i].chains, OfferedIn(states[i], steps[i].hosts, f.index), f.refresh)
  {
    hide Apply, Enabled, PassWindow;
    var spec := PassMemory(states[i].mem, states[i].chains, OfferedIn(states[i], steps[i].hosts, f.index), f.refresh);
    forall h ensures Held(states[k].mem, h) == Held(spec, h) {
      PassSoFar(states, steps, i, k, f, h);
    }
    SameMemory(states[k].mem, spec);
  }

  /**
   The diff refines refreshing everything. In every orderly run, after any lost and late
   publications and failed reads, a pass that begins when the published index describes
   storage leaves exactly the memory that refreshing every host would leave.
   */
  lemma {:induction false} DiffRefinesRefreshingAll(states: seq<State>, steps: seq<Step>, i: nat, k: nat, f: PassFaults)
    requires IsRun(states, steps) && OrderlyRun(states, steps) && RisingRun(states, steps) && CompletePass(states, steps, i, k, f)
    requires states[i].published.Some? ==> forall h :: h in steps[i].hosts ==> Described(states[i], h)
    ensures states[k].mem == PassMemory(states[i].mem, states[i].chains, (iset h | h in steps[i].hosts), f.refresh)
  {
    hide Apply, Enabled, OrderlyRun, RisingRun, PassWindow;
    PassIsTheMethods(states, steps, i, k, f);
    var all := PassMemory(states[i].mem, states[i].chains, (iset h | h in steps[i].hosts), f.refresh);
    forall h ensures Held(states[k].mem, h) == Held(all, h) {
      if h in steps[i].hosts && !Offered(states[i].published, states[i].index, h, f.index) {
        NotOfferedIsCurrent(states, steps, i, h);
      }
    }
    SameMemory(states[k].mem, all);
  }

  /* ----------------------------------------------- a pass while chains are stored */

  /** Memory of h is at least as new as `na`. */
  predicate AtLeast(s: State, h: Host, na: int) {
    h in s.mem && s.mem[h].notAfter >= na
  }

  /** What pass `i` owes h: it was offered and is not refreshed yet, or memory is new enough. */
  predicate Owed(t: State, offered: iset<Host>, h: Host, na: int) {
    && !t.phase.Idle? && h in t.chains && t.chains[h].notAfter >= na
    && ((h in offered && h in Todo(t.phase)) || AtLeast(t, h, na))
  }

  lemma {:induction false} OwedStep(t: State, step: Step, offered: iset<Host>, h: Host, na: int)
    requires Behind(t, h) && Owed(t, offered, h, na) && Enabled(t, step) && Steady(t, step)
    requires !step.End? && !step.Restart? && (step.Refresh? && step.h == h ==> !step.fails)
    ensures Owed(Apply(t, step), offered, h, na)
  {
  }

  lemma {:induction false} OwedBegin(s: State, step: Step, h: Host)
    requires Enabled(s, step) && step.Begin? && h in step.hosts && h in s.chains
    requires !Offered(s.published, s.index, h, step.fails) ==> AtLeast(s, h, s.chains[h].notAfter)
    ensures Owed(Apply(s, step), OfferedIn(s, step.hosts, step.fails), h, s.chains[h].notAfter)
  {
  }

  lemma {:induction false} OwedSoFar(states: seq<State>, steps: seq<Step>, i: nat, k: nat, h: Host)
    requires IsRun(states, steps) && OrderlyRun(states, steps) && i < k < |states| && steps[i].Begin?
    requires h in steps[i].hosts && h in states[i].chains
    requires states[i].published.Some? ==> Described(states[i], h)
    requires forall m :: i < m < k ==>
               !steps[m].End? && !steps[m].Restart? && (steps[m].Refresh? && steps[m].h == h ==> !steps[m].fails)
    ensures Owed(states[k], OfferedIn(states[i], steps[i].hosts, steps[i].fails), h, states[i].chains[h].notAfter)
  {
    hide Apply, Enabled, Owed, Behind, Steady, Undisturbed, OfferedIn;
    if k == i + 1 {
      assert Enabled(states[i], steps[i]) && states[k] == Apply(states[i], steps[i]);
      if !Offered(states[i].published, states[i].index, h, steps[i].fails) {
        NotOfferedHasTheExpiry(states, steps, i, h);
      }
      OwedBegin(states[i], steps[i], h);
    } else {
      OwedSoFar(states, steps, i, k - 1, h);
      RunBehind(states, steps, k - 1, h);
      assert states[k] == Apply(states[k - 1], steps[k - 1]) && Steady(states[k - 1], steps[k - 1]);
      OwedStep(states[k - 1], steps[k - 1], OfferedIn(states[i], steps[i].hosts, steps[i].fails), h, states[i].chains[h].notAfter);
    }
  }

  /**
   While chains are stored and published in the middle of it, a pass still brings every host
   whose read succeeds at least to what storage held when the pass began.
   */
  lemma {:induction false} PassBringsUpToDate(states: seq<State>, steps: seq<Step>, i: nat, k: nat, h: Host)
    requires IsRun(states, steps) && OrderlyRun(states, steps) && i < k < |states| && steps[i].Begin?
    requires h in steps[i].hosts && h in states[i].chains
    requires states[i].published.Some? ==> Described(states[i], h)
    requires forall m :: i < m < k ==>
               !steps[m].End? && !steps[m].Restart? && (steps[m].Refresh? && steps[m].h == h ==> !steps[m].fails)
    requires states[k].phase == Passing({})
    ensures AtLeast(states[k], h, states[i].chains[h].notAfter)
  {
    OwedSoFar(states, steps, i, k, h);
  }

  /* --------------------------------------------------------- the index after a pass */

  /** h has been dealt with: refreshed, and noted if that succeeded. */
  predicate Passed(p: Phase, h: Host) {
    h !in Todo(p) && !(p.Loaded? && p.h == h)
  }

  /** The index in the middle of a pass without publications. */
  ghost predicate MidIndex(s: State, t: State, offered: iset<Host>, f: PassFaults, h: Host) {
    && t.published == s.published && t.chains == s.chains && !t.phase.Idle?
    && (h in Todo(t.phase) ==> h in offered)
    && (t.phase.Loaded? && t.phase.h == h ==> h in offered && h !in Todo(t.phase) && Loads(s.chains, h, f.refresh(h)))
    && Entry(t.index, h) ==
         (if s.published.Some? && h in offered && Passed(t.phase, h) && Loads(s.chains, h, f.refresh(h)) && !f.note(h)
          then Entry(s.published.value, h) else Entry(s.index, h))
  }

  lemma {:induction false} MidIndexStep(s: State, t: State, step: Step, offered: iset<Host>, f: PassFaults, h: Host)
    requires MidIndex(s, t, offered, f, h) && Enabled(t, step) && Quiet(step) && !step.Publish?
    requires step.Refresh? ==> step.fails == f.refresh(step.h)
    requires step.Note? && t.phase.Loaded? ==> step.fails == f.note(t.phase.h)
    ensures MidIndex(s, Apply(t, step), offered, f, h)
  {
  }

  lemma {:induction false} IndexSoFar(states: seq<State>, steps: seq<Step>, i: nat, k: nat, f: PassFaults, h: Host)
    requires IsRun(states, steps) && i < k < |states|
    requires steps[i].Begin? && PassWindow(states, steps, i, k, f) && forall m :: i < m < k ==> !steps[m].Publish?
    ensures MidIndex(states[i], states[k], OfferedIn(states[i], steps[i].hosts, steps[i].fails), f, h)
  {
    hide Apply, Enabled, MidIndex, Quiet, OfferedIn;
    if k == i + 1 {
      assert Enabled(states[i], steps[i]) && states[k] == Apply(states[i], steps[i]);
      MidPassBegin(states[i], steps[i], f, h);
    } else {
      IndexSoFar(states, steps, i, k - 1, f, h);
      assert states[k] == Apply(states[k - 1], steps[k - 1]) && Quiet(steps[k - 1]);
      MidIndexStep(states[i], states[k - 1], steps[k - 1], OfferedIn(states[i], steps[i].hosts, steps[i].fails), f, h);
    }
  }

  /**
   After a complete pass without publications, a host is offered again exactly when it was
   and its refresh or its note failed.
   */
  lemma {:induction false} FailedHostsAreOfferedAgain(states: seq<State>, steps: seq<Step>, i: nat, k: nat, f: PassFaults, h: Host)
    requires IsRun(states, steps) && CompletePass(states, steps, i, k, f) && forall m :: i < m < k ==> !steps[m].Publish?
    requires h in steps[i].hosts && states[i].published.Some?
    ensures Offered(states[k].published, states[k].index, h, false) <==>
            && Offered(states[i].published, states[i].index, h, false)
            && !(Loads(states[i].chains, h, f.refresh(h)) && !f.note(h))
  {
    IndexSoFar(states, steps, i, k, f, h);
  }

  /** After a pass without failures or publications the next diff is empty, and memory is as stored. */
  lemma {:induction false} CleanPassLeavesNoDiff(states: seq<State>, steps: seq<Step>, i: nat, k: nat, f: PassFaults, h: Host)
    requires IsRun(states, steps) && OrderlyRun(states, steps) && RisingRun(states, steps) && CompletePass(states, steps, i, k, f)
    requires forall m :: i < m < k ==> !steps[m].Publish?
    requires h in steps[i].hosts && h in states[i].chains && !f.refresh(h) && !f.note(h)
    requires Described(states[i], h)
    ensures !Offered(states[k].published, states[k].index, h, false)
    ensures Held(states[k].mem, h) == Held(states[k].chains, h)
  {
    hide Apply, Enabled, OrderlyRun, RisingRun, PassWindow;
    FailedHostsAreOfferedAgain(states, steps, i, k, f, h);
    PassSoFar(states, steps, i, k, f, h);
    if !Offered(states[i].published, states[i].index, h, f.index) {
      NotOfferedIsCurrent(states, steps, i, h);
    }
  }

  /* ------------------------------------------------------------ the re-read index */

  /** Memory is behind storage, and the recorded entry hides it: the diff does not offer h. */
  predicate Misled(s: State, h: Host) {
    && h in s.mem && h in s.chains && s.mem[h].notAfter < Entry(s.index, h) <= s.chains[h].notAfter
    && !Offered(s.published, s.index, h, false)
  }

  /** The last publication after step i and before step k, if any, announces a later expiry for h than `na`. */
  ghost predicate AnnouncesLater(states: seq<State>, steps: seq<Step>, i: nat, k: nat, h: Host, na: int)
    requires |states| == |steps| + 1 && k <= |steps|
  {
    if k <= i + 1 then false
    else if steps[k - 1].Publish? && steps[k - 1].l in states[k - 1].leads
      then Entry(states[k - 1].leads[steps[k - 1].l].index, h) > na
    else AnnouncesLater(states, steps, i, k - 1, h, na)
  }

  lemma {:induction false} WindowSoFar(states: seq<State>, steps: seq<Step>, i: nat, k: nat, h: Host)
    requires IsRun(states, steps) && SteadyRun(states, steps) && i < k < |steps|
    requires steps[i] == Refresh(h, false) && h in states[i].chains
    requires forall m :: i < m < k ==> !steps[m].Note? && !steps[m].Restart?
    ensures states[k].phase.Loaded? && states[k].phase.h == h
    ensures h in states[k].mem && states[k].mem[h] == states[i].chains[h]
    ensures Announced(states[k], h) > states[i].chains[h].notAfter <==>
            AnnouncesLater(states, steps, i, k, h, states[i].chains[h].notAfter)
  {
    assert states[k] == Apply(states[k - 1], steps[k - 1]) && Enabled(states[k - 1], steps[k - 1]);
    if k == i + 1 {
      RunBehind(states, steps, i, h);
    } else {
      WindowSoFar(states, steps, i, k - 1, h);
    }
  }

  /**
   noteRefreshed reads the index again, after the chain. A host ends up behind storage and
   hidden from the diff exactly when the last publication between its refresh and its note
   announced a later expiry than the chain that was read.
   */
  lemma {:induction false} MisledIff(states: seq<State>, steps: seq<Step>, i: nat, k: nat, h: Host)
    requires IsRun(states, steps) && SteadyRun(states, steps) && i < k < |steps|
    requires steps[i] == Refresh(h, false) && h in states[i].chains && steps[k] == Note(false)
    requires forall m :: i < m < k ==> !steps[m].Note? && !steps[m].Restart?
    ensures Misled(states[k + 1], h) <==> AnnouncesLater(states, steps, i, k, h, states[i].chains[h].notAfter)
  {
    WindowSoFar(states, steps, i, k, h);
    RunBehind(states, steps, i, h);
    RunBehind(states, steps, k, h);
    assert states[k + 1] == Apply(states[k], Note(false));
  }

  /* ------------------------------------------- what the side conditions keep out */

  /** A run in which chains are only ever renewed. */
  ghost predicate RenewingRun(states: seq<State>, steps: seq<Step>) {
    SteadyRun(states, steps) && RisingRun(states, steps)
  }

  lemma {:induction false} Grow(states: seq<State>, steps: seq<Step>, step: Step)
    returns (states': seq<State>, steps': seq<Step>)
    requires IsRun(states, steps) && Enabled(Last(states), step)
    ensures IsRun(states', steps') && Last(states') == Apply(Last(states), step)
    ensures states <= states' && steps' == steps + [step]
    ensures RenewingRun(states, steps) && Steady(Last(states), step) && Rising(Last(states), step) ==> RenewingRun(states', steps')
    ensures SteadyRun(states, steps) && Steady(Last(states), step) ==> SteadyRun(states', steps')
  {
    hide Apply, Enabled, Steady, Rising;
    states', steps' := states + [Apply(Last(states), step)], steps + [step];
    forall i | 0 <= i < |steps'|
      ensures Enabled(states'[i], steps'[i]) && states'[i + 1] == Apply(states'[i], steps'[i])
      ensures SteadyRun(states, steps) && Steady(Last(states), step) ==> Steady(states'[i], steps'[i])
      ensures RisingRun(states, steps) && Rising(Last(states), step) ==> Rising(states'[i], steps'[i])
    {
      if i < |steps| {
        assert states'[i] == states[i] && steps'[i] == steps[i] && states'[i + 1] == states[i + 1];
      }
    }
  }

  /** The state after leader 0 stores a chain, records and publishes it. */
  function AfterAnnounce(s: State, h: Host, c: Chain): State
    requires 0 in s.leads
  {
    var v := Leader(s.leads[0].mem[h := c], s.leads[0].index[h := c.notAfter]);
    SetLeader(s.(chains := s.chains[h := c], published := Some(v.index)), 0, v)
  }

  lemma {:induction false} RunAnnounce(states: seq<State>, steps: seq<Step>, h: Host, c: Chain)
    returns (states': seq<State>, steps': seq<Step>)
    requires IsRun(states, steps) && 0 in Last(states).leads
    ensures IsRun(states', steps') && states <= states' && Last(states') == AfterAnnounce(Last(states), h, c)
    ensures var put := Put(0, h, c);
            && (SteadyRun(states, steps) && Steady(Last(states), put) ==> SteadyRun(states', steps'))
            && (RenewingRun(states, steps) && Steady(Last(states), put) && Rising(Last(states), put) ==> RenewingRun(states', steps'))
  {
    states', steps' := Grow(states, steps, Put(0, h, c));
    states', steps' := Grow(states', steps', Record(0, h));
    states', steps' := Grow(states', steps', Publish(0));
  }

  /** A pass over one host it offers, no read failing, up to the refresh. */
  lemma {:induction false} RunRefresh(states: seq<State>, steps: seq<Step>, h: Host)
    returns (states': seq<State>, steps': seq<Step>)
    requires IsRun(states, steps) && RenewingRun(states, steps)
    requires Last(states).phase.Idle? && h in Last(states).chains
    requires Offered(Last(states).published, Last(states).index, h, false)
    ensures IsRun(states', steps') && RenewingRun(states', steps') && states <= states'
    ensures var s := Last(states);
            Last(states') == s.(mem := s.mem[h := s.chains[h]], phase := Loaded(h, {}))
  {
    states', steps' := Grow(states, steps, Begin({h}, false));
    assert Last(states').phase.todo == {h};
    states', steps' := Grow(states', steps', Refresh(h, false));
    assert {h} - {h} == {};
  }

  /** The rest of it. */
  lemma {:induction false} RunNote(states: seq<State>, steps: seq<Step>)
    returns (states': seq<State>, steps': seq<Step>)
    requires IsRun(states, steps) && RenewingRun(states, steps) && Last(states).phase.Loaded? && Last(states).published.Some?
    ensures IsRun(states', steps') && RenewingRun(states', steps') && states <= states'
    ensures var s := Last(states);
            Last(states') == s.(index := s.index[s.phase.h := Announced(s, s.phase.h)], phase := Idle)
  {
    states', steps' := Grow(states, steps, Note(false));
    states', steps' := Grow(states', steps', End);
  }

  /** A first chain for h, published by leader 0. */
  lemma {:induction false} RunFirst(h: Host) returns (states: seq<State>, steps: seq<Step>)
    ensures IsRun(states, steps) && RenewingRun(states, steps)
    ensures Last(states) == AfterAnnounce(SetLeader(START, 0, Leader(map[], map[])), h, Chain(1, 100))
  {
    states, steps := [START], [];
    states, steps := Grow(states, steps, Elect(0));
    states, steps := RunAnnounce(states, steps, h, Chain(1, 100));
  }

  /** The same, which the follower has refreshed and noted. */
  lemma {:induction false} RunNoted(h: Host) returns (states: seq<State>, steps: seq<Step>)
    ensures IsRun(states, steps) && RenewingRun(states, steps)
    ensures var c, s := Chain(1, 100), Last(states);
            && s.chains == map[h := c] && s.leads == map[0 := Leader(map[h := c], map[h := 100])]
            && s.published == Some(map[h := 100]) && s.mem == map[h := c] && s.index == map[h := 100] && s.phase.Idle?
  {
    states, steps := RunFirst(h);
    states, steps := RunRefresh(states, steps, h);
    states, steps := RunNote(states, steps);
  }

  /** A publication that is lost: storage has moved on, the diff does not offer the host. */
  lemma {:induction false} LostPublicationHides(h: Host) returns (states: seq<State>, steps: seq<Step>)
    ensures IsRun(states, steps) && RenewingRun(states, steps) && Last(states).phase.Idle?
    ensures !Offered(Last(states).published, Last(states).index, h, false)
    ensures h in Last(states).mem && h in Last(states).chains && Last(states).mem[h] != Last(states).chains[h]
  {
    states, steps := RunNoted(h);
    states, steps := Grow(states, steps, Put(0, h, Chain(2, 200)));
    states, steps := Grow(states, steps, Record(0, h));
  }

  /** Two chains of one expiry: the index describes storage, and the diff misses the change. */
  lemma {:induction false} EqualExpiriesHide(h: Host) returns (states: seq<State>, steps: seq<Step>)
    ensures IsRun(states, steps) && SteadyRun(states, steps) && Last(states).phase.Idle?
    ensures Described(Last(states), h) && !Offered(Last(states).published, Last(states).index, h, false)
    ensures h in Last(states).mem && h in Last(states).chains && Last(states).mem[h] != Last(states).chains[h]
  {
    states, steps := RunNoted(h);
    states, steps := RunAnnounce(states, steps, h, Chain(2, 100));
  }

  /** A publication between a refresh and its note: the follower is misled. */
  lemma {:induction false} LateNoteMisleads(h: Host) returns (states: seq<State>, steps: seq<Step>)
    ensures IsRun(states, steps) && RenewingRun(states, steps) && Last(states).phase.Idle? && Misled(Last(states), h)
    ensures Described(Last(states), h)
  {
    states, steps := RunFirst(h);
    states, steps := RunRefresh(states, steps, h);
    states, steps := RunAnnounce(states, steps, h, Chain(2, 200));
    states, steps := RunNote(states, steps);
  }
}
