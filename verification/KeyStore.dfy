/**
 Creating a persistent key (keystore.go): any number of nodes run loadOrCreate on one
 name at once, one step per storage call.
 */
module KeyStore {
  import opened Common

  type Node = nat
  type Key = nat

  datatype Phase =
    | Idle
    | Loading
    | Putting(k: Key)
    | Rereading
    | Returned(k: Key)
    | Refused

  /** `honours`: the backend fails a create-once of a key that exists, as its contract says. */
  datatype State = State(slot: Option<Key>, honours: bool, nodes: map<Node, Phase>, made: set<Key>)

  datatype Step =
    | Begin(n: Node)
    | Load(n: Node, fails: bool, leader: bool, minted: Key)
    | Put(n: Node, w: Write)
    | Reread(n: Node, fails: bool)

  predicate Enabled(s: State, step: Step) {
    step.n in s.nodes &&
    match step
    case Begin(n) => s.nodes[n].Idle? || s.nodes[n].Refused? || s.nodes[n].Returned?
    case Load(n, _, _, minted) => s.nodes[n].Loading? && minted !in s.made
    case Put(n, _) => s.nodes[n].Putting?
    case Reread(n, _) => s.nodes[n].Rereading?
  }

  function Set(s: State, n: Node, p: Phase): State {
    s.(nodes := s.nodes[n := p])
  }

  function Apply(s: State, step: Step): State
    requires Enabled(s, step)
  {
    match step
    case Begin(n) => Set(s, n, Loading)
    case Load(n, fails, leader, minted) =>
      if fails then Set(s, n, Refused)
      else if s.slot.Some? then Set(s, n, Returned(s.slot.value))
      else if !leader then Set(s, n, Refused)
      else Set(s, n, Putting(minted)).(made := s.made + {minted})
    case Put(n, w) =>
      if s.honours && s.slot.Some? then Set(s, n, if w.Lost? then Refused else Rereading)
      else if w.Lost? then Set(s, n, Refused)
      else Set(s, n, if w.Ok? then Rereading else Refused).(slot := Some(s.nodes[n].k))
    case Reread(n, fails) =>
      Set(s, n, if fails || s.slot.None? then Refused else Returned(s.slot.value))
  }

  ghost predicate Init(s: State) {
    forall n :: n in s.nodes ==> s.nodes[n].Idle?
  }

  ghost predicate IsRun(states: seq<State>, steps: seq<Step>) {
    && |states| == |steps| + 1 && Init(states[0])
    && forall i :: 0 <= i < |steps| ==> Enabled(states[i], steps[i]) && states[i + 1] == Apply(states[i], steps[i])
  }

  /** Whoever has a key has the stored one. */
  ghost predicate Agreed(s: State) {
    forall n :: n in s.nodes && s.nodes[n].Returned? ==> s.slot == Some(s.nodes[n].k)
  }

  lemma {:induction false} RunAgrees(states: seq<State>, steps: seq<Step>, i: nat)
    requires IsRun(states, steps) && states[0].honours && i < |states|
    ensures Agreed(states[i]) && states[i].honours
  {
    if i > 0 {
      RunAgrees(states, steps, i - 1);
      assert Enabled(states[i - 1], steps[i - 1]) && states[i] == Apply(states[i - 1], steps[i - 1]);
    }
  }

  lemma {:induction false} StoredKeyStays(states: seq<State>, steps: seq<Step>, i: nat, j: nat)
    requires IsRun(states, steps) && states[0].honours && i <= j < |states| && states[i].slot.Some?
    ensures states[j].slot == states[i].slot
  {
    if i < j {
      StoredKeyStays(states, steps, i, j - 1);
      RunAgrees(states, steps, j - 1);
      assert Enabled(states[j - 1], steps[j - 1]) && states[j] == Apply(states[j - 1], steps[j - 1]);
    }
  }

  /**
   On a backend that honours create-once, all nodes converge: any two successful returns,
   whenever and wherever they happen, are the same key, and the stored key never changes.
   */
  lemma {:induction false} NodesConverge(states: seq<State>, steps: seq<Step>, i: nat, j: nat, a: Node, b: Node)
    requires IsRun(states, steps) && states[0].honours && i <= j < |states|
    requires a in states[i].nodes && states[i].nodes[a].Returned?
    requires b in states[j].nodes && states[j].nodes[b].Returned?
    ensures states[i].nodes[a].k == states[j].nodes[b].k
    ensures states[i].slot == states[j].slot == Some(states[i].nodes[a].k)
  {
    RunAgrees(states, steps, i);
    RunAgrees(states, steps, j);
    StoredKeyStays(states, steps, i, j);
  }

  /** Step m is node n's, as a leader that found no key, minting k. */
  ghost predicate MintsAt(states: seq<State>, steps: seq<Step>, m: nat, n: Node, k: Key) {
    && m < |steps| && m < |states| && states[m].slot.None?
    && steps[m].Load? && steps[m].n == n && !steps[m].fails && steps[m].leader && steps[m].minted == k
  }

  /** Only a leader creates a key: whoever is about to write one minted it as a leader that found none. */
  lemma {:induction false} OnlyLeadersMint(states: seq<State>, steps: seq<Step>, i: nat, n: Node)
    requires IsRun(states, steps) && i < |states| && n in states[i].nodes && states[i].nodes[n].Putting?
    ensures exists m: nat :: m < i && MintsAt(states, steps, m, n, states[i].nodes[n].k)
  {
    if i > 0 {
      assert Enabled(states[i - 1], steps[i - 1]) && states[i] == Apply(states[i - 1], steps[i - 1]);
      if n in states[i - 1].nodes && states[i - 1].nodes[n].Putting? {
        OnlyLeadersMint(states, steps, i - 1, n);
      } else {
        assert MintsAt(states, steps, i - 1, n, states[i].nodes[n].k);
      }
    }
  }

  /** Hence what is stored was put there by a leader that found nothing, and a write fails only as its backend says. */
  lemma {:induction false} StoredWasMinted(states: seq<State>, steps: seq<Step>, i: nat)
    requires IsRun(states, steps) && i < |steps| && states[i + 1].slot != states[i].slot
    ensures steps[i].Put? && !steps[i].w.Lost? && states[i + 1].slot.Some?
    ensures var n, k := steps[i].n, states[i + 1].slot.value;
            exists m: nat :: m < i && MintsAt(states, steps, m, n, k)
  {
    assert Enabled(states[i], steps[i]) && states[i + 1] == Apply(states[i], steps[i]);
    OnlyLeadersMint(states, steps, i, steps[i].n);
  }

  /**
   A node that meets no fault ends with a key: a leader always, and any node once there is
   one, the loser of a creation race included.
   */
  lemma {:induction false} FaultlessNodesSucceed(s: State, n: Node, minted: Key, leader: bool)
    requires n in s.nodes && s.nodes[n].Loading? && minted !in s.made && (leader || s.slot.Some?)
    ensures var t := Apply(s, Load(n, false, leader, minted));
            if s.slot.Some? then t.nodes[n] == Returned(s.slot.value) && t.slot == s.slot
            else t.nodes[n] == Putting(minted)
  {
  }

  lemma {:induction false} FaultlessWritersSucceed(s: State, n: Node)
    requires n in s.nodes && s.nodes[n].Putting?
    ensures var t := Apply(s, Put(n, Ok));
            && t.nodes[n].Rereading? && t.slot == (if s.honours && s.slot.Some? then s.slot else Some(s.nodes[n].k))
            && Apply(t, Reread(n, false)).nodes[n] == Returned(t.slot.value)
    ensures !(s.honours && s.slot.Some?) ==> Apply(s, Put(n, LandedButFailed)).nodes[n].Refused?
  {
  }

  /**
   On a backend that ignores create-once, reading the key back does not make the nodes
   converge: the first reads its own key back before the second overwrites it.
   */
  lemma {:induction false} ReadBackDoesNotConverge() returns (states: seq<State>, steps: seq<Step>)
    ensures IsRun(states, steps)
    ensures var s := states[|states| - 1];
            && 0 in s.nodes && 1 in s.nodes && s.nodes[0].Returned? && s.nodes[1].Returned?
            && s.nodes[0].k != s.nodes[1].k
  {
    var s0 := State(None, false, map[0 := Idle, 1 := Idle], {});
    steps := [Begin(0), Begin(1), Load(0, false, true, 7), Load(1, false, true, 8),
              Put(0, Ok), Reread(0, false), Put(1, Ok), Reread(1, false)];
    var s1 := Apply(s0, steps[0]);
    var s2 := Apply(s1, steps[1]);
    var s3 := Apply(s2, steps[2]);
    var s4 := Apply(s3, steps[3]);
    var s5 := Apply(s4, steps[4]);
    var s6 := Apply(s5, steps[5]);
    var s7 := Apply(s6, steps[6]);
    var s8 := Apply(s7, steps[7]);
    states := [s0, s1, s2, s3, s4, s5, s6, s7, s8];
  }
}
