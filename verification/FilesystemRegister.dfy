/**
 The conditional writes of the filesystem backend (storage/filesystem.go) on one key, as
 a state machine over any number of goroutines, one step per system call or lock
 operation, refined to the register storage/interface.go promises. A temporary file's
 modification time, which becomes the object's, is its ETag: the times are distinct.
 */
module FilesystemRegister {
  import opened Common

  type Proc = nat
  type Content = nat
  type ETag = int

  datatype Outcome = Done | PreconditionFailed | Failed

  /** What a goroutine is about to do. */
  datatype Phase =
    | Idle
    | Linking(c: Content, m: ETag)
    | PutLocking(c: Content, m: ETag, want: ETag)
    | PutStatting(c: Content, m: ETag, want: ETag)
    | PutRenaming(c: Content, m: ETag, want: ETag)
    | RemoveLocking
    | RemoveUnlinking
    | Unlocking(r: Outcome)
    | Returning(r: Outcome)

  datatype File = File(content: Content, mtime: ETag)

  datatype State = State(file: Option<File>, lock: Option<Proc>, procs: map<Proc, Phase>, used: set<ETag>)

  /** `fails` is a system call failing for another reason than the precondition. */
  datatype Step =
    | BeginCreate(a: Proc, c: Content, m: ETag)
    | BeginPut(a: Proc, c: Content, m: ETag, want: ETag)
    | BeginRemove(a: Proc)
    | Link(a: Proc, fails: bool)
    | Lock(a: Proc)
    | Stat(a: Proc, fails: bool)
    | Rename(a: Proc, fails: bool)
    | Unlink(a: Proc, fails: bool)
    | Unlock(a: Proc)
    | Return(a: Proc)

  predicate Enabled(s: State, step: Step) {
    step.a in s.procs &&
    match step
    case BeginCreate(a, _, m) => s.procs[a].Idle? && m !in s.used
    case BeginPut(a, _, m, _) => s.procs[a].Idle? && m !in s.used
    case BeginRemove(a) => s.procs[a].Idle?
    case Link(a, _) => s.procs[a].Linking?
    case Lock(a) => s.lock.None? && (s.procs[a].PutLocking? || s.procs[a].RemoveLocking?)
    case Stat(a, _) => s.procs[a].PutStatting?
    case Rename(a, _) => s.procs[a].PutRenaming?
    case Unlink(a, _) => s.procs[a].RemoveUnlinking?
    case Unlock(a) => s.procs[a].Unlocking?
    case Return(a) => s.procs[a].Returning?
  }

  function Set(s: State, a: Proc, p: Phase): State {
    s.(procs := s.procs[a := p])
  }

  function Apply(s: State, step: Step): State
    requires Enabled(s, step)
  {
    var a, p := step.a, s.procs[step.a];
    match step
    case BeginCreate(_, c, m) => Set(s, a, Linking(c, m)).(used := s.used + {m})
    case BeginPut(_, c, m, want) => Set(s, a, PutLocking(c, m, want)).(used := s.used + {m})
    case BeginRemove(_) => Set(s, a, RemoveLocking)
    case Link(_, fails) =>
      if s.file.Some? then Set(s, a, Returning(PreconditionFailed))
      else if fails then Set(s, a, Returning(Failed))
      else Set(s, a, Returning(Done)).(file := Some(File(p.c, p.m)))
    case Lock(_) =>
      Set(s, a, if p.PutLocking? then PutStatting(p.c, p.m, p.want) else RemoveUnlinking).(lock := Some(a))
    case Stat(_, fails) =>
      Set(s, a,
          if s.file.None? then Unlocking(PreconditionFailed)
          else if fails then Unlocking(Failed)
          else if s.file.value.mtime != p.want then Unlocking(PreconditionFailed)
          else PutRenaming(p.c, p.m, p.want))
    case Rename(_, fails) =>
      if fails then Set(s, a, Unlocking(Failed))
      else Set(s, a, Unlocking(Done)).(file := Some(File(p.c, p.m)))
    case Unlink(_, fails) =>
      if fails && s.file.Some? then Set(s, a, Unlocking(Failed))
      else Set(s, a, Unlocking(Done)).(file := None)
    case Unlock(_) => Set(s, a, Returning(p.r)).(lock := None)
    case Return(_) => Set(s, a, Idle)
  }

  ghost predicate IsRun(states: seq<State>, steps: seq<Step>) {
    && |states| == |steps| + 1 && Init(states[0])
    && forall i :: 0 <= i < |steps| ==> Enabled(states[i], steps[i]) && states[i + 1] == Apply(states[i], steps[i])
  }

  ghost predicate Init(s: State) {
    && s.lock.None? && (forall a :: a in s.procs ==> s.procs[a].Idle?)
    && (s.file.Some? ==> s.file.value.mtime in s.used)
  }

  /* ------------------------------------------------------ the abstract register */

  /** The backend contract: create once, replace if the ETag matches, remove. */
  datatype RegisterOp =
    | Create(c: Content, tag: ETag)
    | Replace(c: Content, tag: ETag, want: ETag)
    | Remove

  datatype Effect = Effect(register: Option<File>, r: Outcome)

  function Perform(register: Option<File>, op: RegisterOp): Effect {
    match op
    case Create(c, tag) =>
      if register.Some? then Effect(register, PreconditionFailed) else Effect(Some(File(c, tag)), Done)
    case Replace(c, tag, want) =>
      if register.Some? && register.value.mtime == want then Effect(Some(File(c, tag)), Done)
      else Effect(register, PreconditionFailed)
    case Remove => Effect(None, Done)
  }

  /** The operation a step completes against the register, if it is the one that decides it. */
  function Linearized(s: State, step: Step): Option<RegisterOp>
    requires Enabled(s, step)
  {
    var p := s.procs[step.a];
    match step
    case Link(_, _) => Some(Create(p.c, p.m))
    case Stat(_, _) =>
      if s.file.None? || s.file.value.mtime != p.want then Some(Replace(p.c, p.m, p.want)) else None
    case Rename(_, _) => Some(Replace(p.c, p.m, p.want))
    case Unlink(_, _) => Some(Remove)
    case _ => None
  }

  /** What the goroutine will return after a step that decides it. */
  function Decided(s: State, step: Step): Outcome
    requires Enabled(s, step) && Linearized(s, step).Some?
  {
    Apply(s, step).procs[step.a].r
  }

  /** The step's system call fails for a reason of its own: a missing or an existing file is not one. */
  predicate Fails(s: State, step: Step) {
    match step
    case Link(_, fails) => fails && s.file.None?
    case Stat(_, fails) => fails && s.file.Some?
    case Rename(_, fails) => fails
    case Unlink(_, fails) => fails && s.file.Some?
    case _ => false
  }

  predicate HasOutcome(p: Phase) {
    p.Unlocking? || p.Returning?
  }

  /* --------------------------------------------------------------- invariant */

  predicate InSection(p: Phase) {
    p.PutStatting? || p.PutRenaming? || p.RemoveUnlinking? || p.Unlocking?
  }

  function Temporary(p: Phase): Option<ETag> {
    match p
    case Linking(_, m) => Some(m)
    case PutLocking(_, m, _) => Some(m)
    case PutStatting(_, m, _) => Some(m)
    case PutRenaming(_, m, _) => Some(m)
    case _ => None
  }

  ghost predicate Inv(s: State) {
    && (forall a :: a in s.procs && InSection(s.procs[a]) ==> s.lock == Some(a))
    && (s.lock.Some? ==> s.lock.value in s.procs && InSection(s.procs[s.lock.value]))
    && (forall a :: a in s.procs && s.procs[a].PutRenaming? ==>
          s.file.Some? && s.file.value.mtime == s.procs[a].want)
  }

  /** Times in use are used, and no unpublished file shares one. */
  ghost predicate TimesInv(s: State) {
    && (s.file.Some? ==> s.file.value.mtime in s.used)
    && (forall a :: a in s.procs && Temporary(s.procs[a]).Some? ==>
          && Temporary(s.procs[a]).value in s.used
          && (s.file.Some? ==> s.file.value.mtime != Temporary(s.procs[a]).value))
    && (forall a, b :: a in s.procs && b in s.procs && a != b && Temporary(s.procs[a]).Some? ==>
          Temporary(s.procs[a]) != Temporary(s.procs[b]))
  }

  lemma {:induction false} InvStep(s: State, step: Step)
    requires Inv(s) && Enabled(s, step)
    ensures Inv(Apply(s, step))
  {
  }

  /** A step moves its own goroutine, whose temporary is new, as it was, or done with. */
  lemma {:induction false} TemporaryFrom(s: State, step: Step, b: Proc)
    requires Enabled(s, step) && b in Apply(s, step).procs
    ensures b in s.procs && s.used <= Apply(s, step).used
    ensures b != step.a ==> Apply(s, step).procs[b] == s.procs[b]
    ensures var t := Temporary(Apply(s, step).procs[step.a]);
            || t.None? || (t == Temporary(s.procs[step.a]) && Apply(s, step).file == s.file)
            || (t.value !in s.used && t.value in Apply(s, step).used && Apply(s, step).file == s.file)
  {
  }

  /** A file is published from the publisher's own temporary. */
  lemma {:induction false} FileFrom(s: State, step: Step)
    requires Enabled(s, step)
    ensures step.a in s.procs && step.a in Apply(s, step).procs
    ensures var f := Apply(s, step).file;
            || f == s.file || f.None?
            || (Temporary(s.procs[step.a]) == Some(f.value.mtime) && Temporary(Apply(s, step).procs[step.a]).None?)
  {
  }

  lemma {:induction false} TimesStep(s: State, step: Step)
    requires TimesInv(s) && Enabled(s, step)
    ensures TimesInv(Apply(s, step)) && s.used <= Apply(s, step).used
  {
    hide Apply, Enabled, Temporary;
    var t := Apply(s, step);
    FileFrom(s, step);
    TemporaryFrom(s, step, step.a);
    forall b | b in t.procs
      ensures b in s.procs && (b != step.a ==> t.procs[b] == s.procs[b])
    {
      TemporaryFrom(s, step, b);
    }
  }

  lemma {:induction false} RunKeepsInv(states: seq<State>, steps: seq<Step>, i: nat)
    requires IsRun(states, steps) && i < |states|
    ensures Inv(states[i]) && TimesInv(states[i])
  {
    if i > 0 {
      RunKeepsInv(states, steps, i - 1);
      InvStep(states[i - 1], steps[i - 1]);
      TimesStep(states[i - 1], steps[i - 1]);
    }
  }

  /* ---------------------------------------------------------------- theorems */

  /**
   Every interleaving linearizes. A step either leaves the register alone, or performs
   exactly one operation of the contract on it and that is the outcome the goroutine
   returns; only a system call that fails is reported as a failure, and leaves the register
   alone. No goroutine has an outcome from any other step.
   */
  lemma {:induction false} Linearizes(states: seq<State>, steps: seq<Step>, i: nat)
    requires IsRun(states, steps) && i < |steps|
    ensures var s, step := states[i], steps[i];
            && (Linearized(s, step).None? ==> states[i + 1].file == s.file)
            && (Linearized(s, step).Some? ==>
                  if Decided(s, step).Failed? then Fails(s, step) && states[i + 1].file == s.file
                  else Effect(states[i + 1].file, Decided(s, step)) == Perform(s.file, Linearized(s, step).value))
    ensures var s, step, p := states[i], steps[i], states[i].procs[steps[i].a];
            HasOutcome(states[i + 1].procs[step.a]) && !HasOutcome(p) ==> Linearized(s, step).Some? || Fails(s, step)
    ensures Linearized(states[i], steps[i]).Some? ==> HasOutcome(states[i + 1].procs[steps[i].a])
  {
    RunKeepsInv(states, steps, i);
  }

  /** The outcome decided at the linearization point is what the goroutine returns. */
  lemma {:induction false} OutcomeStands(states: seq<State>, steps: seq<Step>, i: nat, j: nat, a: Proc)
    requires IsRun(states, steps) && i <= j < |states| && a in states[i].procs
    requires states[i].procs[a].Unlocking? || states[i].procs[a].Returning?
    requires forall k :: i <= k < j ==> steps[k] != Return(a)
    ensures a in states[j].procs && (states[j].procs[a].Unlocking? || states[j].procs[a].Returning?)
    ensures states[j].procs[a].r == states[i].procs[a].r
  {
    if i < j {
      OutcomeStands(states, steps, i, j - 1, a);
      assert Enabled(states[j - 1], steps[j - 1]) && states[j] == Apply(states[j - 1], steps[j - 1]);
      assert steps[j - 1] != Return(a);
    }
  }

  /** The next step of a goroutine in the middle of an operation, no system call failing. */
  function NextOf(p: Phase, a: Proc): Step
    requires !p.Idle?
  {
    match p
    case Linking(_, _) => Link(a, false)
    case PutLocking(_, _, _) => Lock(a)
    case PutStatting(_, _, _) => Stat(a, false)
    case PutRenaming(_, _, _) => Rename(a, false)
    case RemoveLocking => Lock(a)
    case RemoveUnlinking => Unlink(a, false)
    case Unlocking(_) => Unlock(a)
    case Returning(_) => Return(a)
  }

  /** Nobody waits for ever: a goroutine can go on, or the one that has the lock can. */
  lemma {:induction false} NoDeadlock(states: seq<State>, steps: seq<Step>, i: nat, a: Proc)
    requires IsRun(states, steps) && i < |states| && a in states[i].procs && !states[i].procs[a].Idle?
    ensures var s := states[i];
            || Enabled(s, NextOf(s.procs[a], a))
            || (&& s.lock.Some? && s.lock.value in s.procs && !s.procs[s.lock.value].Idle?
                && Enabled(s, NextOf(s.procs[s.lock.value], s.lock.value)))
  {
    RunKeepsInv(states, steps, i);
  }

  /** A conditional replacement finds its object there: it never brings a removed key back. */
  lemma {:induction false} NoResurrection(states: seq<State>, steps: seq<Step>, i: nat)
    requires IsRun(states, steps) && i < |steps| && steps[i].Rename?
    ensures states[i].file.Some? && states[i].file.value.mtime == states[i].procs[steps[i].a].want
  {
    RunKeepsInv(states, steps, i);
    assert Enabled(states[i], steps[i]);
  }

  /** Once the file with time `tag` is gone no file ever carries that time again. */
  lemma {:induction false} TagStaysGone(states: seq<State>, steps: seq<Step>, i: nat, j: nat, tag: ETag)
    requires IsRun(states, steps) && i <= j < |states|
    requires tag in states[i].used && !(states[i].file.Some? && states[i].file.value.mtime == tag)
    requires forall a :: a in states[i].procs ==> Temporary(states[i].procs[a]) != Some(tag)
    ensures tag in states[j].used && !(states[j].file.Some? && states[j].file.value.mtime == tag)
    ensures forall a :: a in states[j].procs ==> Temporary(states[j].procs[a]) != Some(tag)
  {
    if i < j {
      TagStaysGone(states, steps, i, j - 1, tag);
      assert Enabled(states[j - 1], steps[j - 1]) && states[j] == Apply(states[j - 1], steps[j - 1]);
    }
  }

  /** Step i replaces the object that carried `tag`. */
  ghost predicate Replaces(states: seq<State>, steps: seq<Step>, i: nat, tag: ETag) {
    && i < |steps| < |states| && steps[i].Rename? && !steps[i].fails
    && Enabled(states[i], steps[i]) && states[i].procs[steps[i].a].want == tag
  }

  /** Of all the writers that captured one ETag, one wins. */
  lemma {:induction false} OneWinnerPerETag(states: seq<State>, steps: seq<Step>, i: nat, j: nat, tag: ETag)
    requires IsRun(states, steps) && Replaces(states, steps, i, tag) && Replaces(states, steps, j, tag)
    ensures i == j
  {
    if i != j {
      var first, second := if i < j then i else j, if i < j then j else i;
      RunKeepsInv(states, steps, first);
      RunKeepsInv(states, steps, second);
      assert states[first + 1] == Apply(states[first], steps[first]);
      TagStaysGone(states, steps, first + 1, second, tag);
    }
  }

  /** Without a removal an object stays. */
  lemma {:induction false} ObjectStays(states: seq<State>, steps: seq<Step>, i: nat, j: nat)
    requires IsRun(states, steps) && i <= j < |states| && states[i].file.Some?
    requires forall k :: i <= k < j ==> !steps[k].Unlink?
    ensures states[j].file.Some?
  {
    if i < j {
      ObjectStays(states, steps, i, j - 1);
      assert Enabled(states[j - 1], steps[j - 1]) && states[j] == Apply(states[j - 1], steps[j - 1]);
      assert !steps[j - 1].Unlink?;
    }
  }

  /** Step i creates the object. */
  ghost predicate Creates(states: seq<State>, steps: seq<Step>, i: nat) {
    && i < |steps| < |states| && steps[i].Link? && !steps[i].fails
    && Enabled(states[i], steps[i]) && states[i].file.None?
  }

  /** Between two creations that win there is a removal. */
  lemma {:induction false} OneWinnerPerCreate(states: seq<State>, steps: seq<Step>, i: nat, j: nat)
    requires IsRun(states, steps) && i < j && Creates(states, steps, i) && Creates(states, steps, j)
    ensures exists k :: i < k < j && steps[k].Unlink?
  {
    if forall k :: i < k < j ==> !steps[k].Unlink? {
      assert states[i + 1] == Apply(states[i], steps[i]);
      ObjectStays(states, steps, i + 1, j);
    }
  }
}
