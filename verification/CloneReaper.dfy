/**
 The clone system call of `kernel/sched.go`, its failure paths, and the reaper that waits for each
 task, removes it from the shared pid table and closes it. Calls, tasks and reapers run concurrently.
 */
module CloneReaper {
  import opened Machine

  const CLONE_VFORK := 0x4000

  predicate IsVfork(flags: i32) { flags / CLONE_VFORK % 2 == 1 }

  /** The test is for bit 14 of the flags. */
  lemma VforkBit(flags: i32)
    ensures IsVfork(flags) <==> Bit(ToU32(flags), 14)
  {
    Shr14(ToU32(flags));
    assert ToU32(flags) == if flags < 0 then flags + TWO32 else flags;
  }

  /** Where one clone call, or the reaper it started, stands. */
  datatype PC =
    | Idle                     // not called yet
    | Forked                   // the task exists; its registers are being set up
    | Failing                  // setting up or starting the task failed
    | Running                  // the task was started
    | Waiting                  // vfork: waiting for the task to end
    | Stored                   // the pid is in the table
    | Watching                 // the call has returned; the reaper waits for the task to end
    | Deleting                 // the reaper is about to remove the table entry
    | Closing                  // the reaper is about to close the task
    | Finished(forked: bool)   // all over; `forked` says whether there ever was a task

  datatype Returned = NotYet | Pid(pid: i32) | Eagain

  /**
   One clone call with the task it forks. `id` is the task's identifier, `done` says that the task has
   ended, `closes` counts the calls of its Close.
   */
  datatype Agent = Agent(pc: PC, flags: i32, childStack: u64, id: nat, done: bool, closes: nat, ret: Returned)

  /** `tasks` maps a pid to the call whose task was stored under it. */
  datatype State = State(agents: seq<Agent>, tasks: map<i32, nat>)

  datatype Step =
    | Fork(i: nat, id: nat)
    | ForkFails(i: nat)
    | SetUpFails(i: nat)
    | RunFails(i: nat)
    | RunStarts(i: nat)
    | CloseFailed(i: nat)
    | TaskEnds(i: nat)
    | VforkWaits(i: nat)
    | VforkCloses(i: nat)
    | Store(i: nat)
    | Spawn(i: nat)
    | ReaperWakes(i: nat)
    | Delete(i: nat)
    | CloseReaped(i: nat)

  function PidOf(a: Agent): i32 { ToI32(a.id) }

  /** The task exists and has not been closed. */
  predicate Live(a: Agent) { !a.pc.Idle? && !a.pc.Finished? }

  /** The task was started. */
  predicate Started(a: Agent) {
    a.pc.Running? || a.pc.Waiting? || a.pc.Stored? || a.pc.Watching? || a.pc.Deleting? || a.pc.Closing?
  }

  /** Between Store and Delete. */
  predicate Listed(a: Agent) { a.pc.Stored? || a.pc.Watching? || a.pc.Deleting? }

  /** Identifiers are unique among tasks that are not closed; a closed task's may be used again. */
  ghost predicate Unused(s: State, id: nat) {
    forall j :: 0 <= j < |s.agents| && Live(s.agents[j]) ==> s.agents[j].id != id
  }

  ghost predicate Enabled(s: State, step: Step) {
    && step.i < |s.agents|
    && var a := s.agents[step.i];
       match step
       case Fork(_, id) => a.pc.Idle? && Unused(s, id)
       case ForkFails(_) => a.pc.Idle?
       case SetUpFails(_) => a.pc.Forked? && a.childStack != 0
       case RunFails(_) => a.pc.Forked?
       case RunStarts(_) => a.pc.Forked?
       case CloseFailed(_) => a.pc.Failing?
       case TaskEnds(_) => Started(a) && !a.done
       case VforkWaits(_) => a.pc.Running? && IsVfork(a.flags)
       case VforkCloses(_) => a.pc.Waiting? && a.done
       case Store(_) => a.pc.Running? && !IsVfork(a.flags)
       case Spawn(_) => a.pc.Stored?
       case ReaperWakes(_) => a.pc.Watching? && a.done
       case Delete(_) => a.pc.Deleting?
       case CloseReaped(_) => a.pc.Closing?
  }

  function Put(s: State, i: nat, a: Agent): State
    requires i < |s.agents|
  {
    s.(agents := s.agents[i := a])
  }

  function Closed(a: Agent): Agent { a.(pc := Finished(true), closes := a.closes + 1) }

  function Apply(s: State, step: Step): State
    requires Enabled(s, step)
  {
    var i := step.i;
    var a := s.agents[i];
    match step
    case Fork(_, id) => Put(s, i, a.(pc := Forked, id := id))
    case ForkFails(_) => Put(s, i, a.(pc := Finished(false), ret := Eagain))
    case SetUpFails(_) => Put(s, i, a.(pc := Failing))
    case RunFails(_) => Put(s, i, a.(pc := Failing))
    case RunStarts(_) => Put(s, i, a.(pc := Running))
    case CloseFailed(_) => Put(s, i, Closed(a).(ret := Eagain))
    case TaskEnds(_) => Put(s, i, a.(done := true))
    case VforkWaits(_) => Put(s, i, a.(pc := Waiting))
    case VforkCloses(_) => Put(s, i, Closed(a).(ret := Pid(PidOf(a))))
    case Store(_) => Put(s.(tasks := s.tasks[PidOf(a) := i]), i, a.(pc := Stored))
    case Spawn(_) => Put(s, i, a.(pc := Watching, ret := Pid(PidOf(a))))
    case ReaperWakes(_) => Put(s, i, a.(pc := Deleting))
    case Delete(_) => Put(s.(tasks := s.tasks - {PidOf(a)}), i, a.(pc := Closing))
    case CloseReaped(_) => Put(s, i, Closed(a))
  }

  ghost predicate Init(s: State) {
    && s.tasks == map[]
    && forall j :: 0 <= j < |s.agents| ==>
         s.agents[j].pc.Idle? && !s.agents[j].done && s.agents[j].closes == 0 && s.agents[j].ret.NotYet?
  }

  datatype Run = Run(ss: seq<State>, steps: seq<Step>)

  ghost predicate Follows(r: Run, k: nat)
    requires |r.ss| == |r.steps| + 1
  {
    k < |r.steps| ==> Enabled(r.ss[k], r.steps[k]) && r.ss[k + 1] == Apply(r.ss[k], r.steps[k])
  }

  ghost predicate IsRun(r: Run) {
    |r.ss| == |r.steps| + 1 && Init(r.ss[0]) && forall k: nat :: Follows(r, k)
  }

  // Every task is closed exactly once

  predicate AgentOk(a: Agent) {
    && a.closes == (if a.pc == Finished(true) then 1 else 0)
    && (a.pc.Watching? || a.pc.Deleting? || a.pc.Closing? ==> a.ret == Pid(PidOf(a)))
    && (a.pc.Deleting? || a.pc.Closing? ==> a.done)
    && (a.pc.Idle? || a.pc.Forked? || a.pc.Failing? ==> !a.done && a.ret.NotYet?)
    && (a.pc.Running? || a.pc.Waiting? || a.pc.Stored? ==> a.ret.NotYet?)
    && (a.pc == Finished(false) ==> a.ret.Eagain? && !a.done)
    && (a.pc == Finished(true) ==> if a.done then a.ret == Pid(PidOf(a)) else a.ret.Eagain?)
    && (IsVfork(a.flags) ==> !Listed(a) && !a.pc.Closing?)
    && (!IsVfork(a.flags) ==> !a.pc.Waiting?)
  }

  lemma {:induction false} AgentsOk(r: Run, k: nat, i: nat)
    requires IsRun(r) && k < |r.ss| && i < |r.ss[k].agents|
    ensures AgentOk(r.ss[k].agents[i])
  {
    if k > 0 {
      assert Follows(r, k - 1);
      AgentsOk(r, k - 1, i);
    }
  }

  /** The arguments of a call never change. */
  lemma {:induction false} ArgumentsKept(r: Run, k: nat, i: nat)
    requires IsRun(r) && k < |r.ss| && i < |r.ss[0].agents|
    ensures |r.ss[k].agents| == |r.ss[0].agents|
    ensures r.ss[k].agents[i].flags == r.ss[0].agents[i].flags && r.ss[k].agents[i].childStack == r.ss[0].agents[i].childStack
  {
    if k > 0 {
      assert Follows(r, k - 1);
      ArgumentsKept(r, k - 1, i);
    }
  }

  /** The identifier of a task is the one that the fork gave it. */
  lemma {:induction false} NamedByFork(r: Run, k: nat, i: nat) returns (d: nat)
    requires IsRun(r) && k < |r.ss| && i < |r.ss[k].agents|
    requires Live(r.ss[k].agents[i]) || r.ss[k].agents[i].pc == Finished(true)
    ensures d < k && r.steps[d] == Fork(i, r.ss[k].agents[i].id)
  {
    assert Follows(r, k - 1);
    var a := r.ss[k - 1].agents[i];
    if Live(a) || a.pc == Finished(true) {
      d := NamedByFork(r, k - 1, i);
    } else {
      d := k - 1;
    }
  }

  /**
   In every interleaving each forked task is closed at most once, and exactly once when its clone call
   and any reaper have finished. A call returns EAGAIN only if its task never ran and is closed (or never
   existed); it returns a pid only for a started task. If bit 14 of the flags that it was called with is set,
   it returns a pid only after that task ended and was closed; otherwise it never waits for the task.
   */
  lemma ClosedExactlyOnce(r: Run, k: nat, i: nat)
    requires IsRun(r) && k < |r.ss| && i < |r.ss[0].agents|
    ensures |r.ss[k].agents| == |r.ss[0].agents|
    ensures var a, flags := r.ss[k].agents[i], r.ss[0].agents[i].flags;
            && a.closes <= 1
            && (Live(a) ==> a.closes == 0)
            && (a.pc.Finished? ==> a.closes == (if a.pc.forked then 1 else 0))
            && (a.ret.Eagain? ==> a.pc.Finished? && !a.done)
            && (a.ret.Pid? ==> a.ret.pid == PidOf(a) && (a.closes == 1 ==> a.done))
            && (a.ret.Pid? && Bit(ToU32(flags), 14) ==> a.done && a.closes == 1)
            && (a.ret.Pid? && !Bit(ToU32(flags), 14) ==> a.pc.Watching? || a.done)
            && (Bit(ToU32(flags), 14) ==> !Listed(a) && !a.pc.Closing?)
            && (!Bit(ToU32(flags), 14) ==> !a.pc.Waiting?)
  {
    ArgumentsKept(r, k, i);
    AgentsOk(r, k, i);
    VforkBit(r.ss[k].agents[i].flags);
  }

  /** A pid that is returned is the identifier that the fork gave the task, cut to 32 bits. */
  lemma PidFromFork(r: Run, k: nat, i: nat) returns (d: nat)
    requires IsRun(r) && k < |r.ss| && i < |r.ss[k].agents| && r.ss[k].agents[i].ret.Pid?
    ensures d < k && r.steps[d].Fork? && r.steps[d].i == i && r.ss[k].agents[i].ret.pid == ToI32(r.steps[d].id)
  {
    AgentsOk(r, k, i);
    d := NamedByFork(r, k, i);
  }

  // The pid table

  /** Every entry names an unclosed task with that pid and a pending reaper, and every such task has its entry. */
  ghost predicate TableOk(s: State) {
    && (forall p :: p in s.tasks ==>
          s.tasks[p] < |s.agents| && Listed(s.agents[s.tasks[p]]) && PidOf(s.agents[s.tasks[p]]) == p)
    && (forall j: nat :: j < |s.agents| ==> HasEntry(s, j))
  }

  predicate HasEntry(s: State, j: nat)
    requires j < |s.agents|
  {
    Listed(s.agents[j]) ==> PidOf(s.agents[j]) in s.tasks && s.tasks[PidOf(s.agents[j])] == j
  }

  /** The step does not store a pid that is already taken. */
  predicate NoClash(s: State, step: Step) {
    step.Store? && step.i < |s.agents| ==> PidOf(s.agents[step.i]) !in s.tasks
  }

  lemma LocalTableOk(s: State, step: Step)
    requires TableOk(s) && Enabled(s, step) && !step.Store? && !step.Delete?
    ensures TableOk(Apply(s, step))
  {
    var s' := Apply(s, step);
    forall j: nat | j < |s.agents| ensures HasEntry(s', j) {
      assert HasEntry(s, j);
    }
  }

  lemma DeleteTableOk(s: State, i: nat)
    requires TableOk(s) && Enabled(s, Delete(i))
    ensures TableOk(Apply(s, Delete(i)))
  {
    var s' := Apply(s, Delete(i));
    assert HasEntry(s, i);
    forall j: nat | j < |s.agents| ensures HasEntry(s', j) {
      assert HasEntry(s, j);
    }
  }

  /** Storing keeps the table right exactly when the pid is free. */
  lemma StoreTableOk(s: State, i: nat)
    requires TableOk(s) && Enabled(s, Store(i))
    ensures TableOk(Apply(s, Store(i))) <==> NoClash(s, Store(i))
  {
    var s', p := Apply(s, Store(i)), PidOf(s.agents[i]);
    if p in s.tasks {
      var j := s.tasks[p];
      assert j != i && !HasEntry(s', j);
    } else {
      forall j: nat | j < |s.agents| ensures HasEntry(s', j) {
        assert HasEntry(s, j);
      }
    }
  }

  lemma TableStep(s: State, step: Step)
    requires TableOk(s) && Enabled(s, step)
    ensures TableOk(Apply(s, step)) <==> NoClash(s, step)
  {
    if step.Store? {
      StoreTableOk(s, step.i);
    } else if step.Delete? {
      DeleteTableOk(s, step.i);
    } else {
      LocalTableOk(s, step);
    }
  }

  lemma InitTable(s: State)
    requires Init(s)
    ensures TableOk(s)
  {
  }

  lemma {:induction false} NoClashTable(r: Run, k: nat)
    requires IsRun(r) && k < |r.ss| && forall x :: 0 <= x < k ==> NoClash(r.ss[x], r.steps[x])
    ensures TableOk(r.ss[k])
  {
    if k == 0 {
      InitTable(r.ss[0]);
    } else {
      NoClashTable(r, k - 1);
      assert Follows(r, k - 1);
      TableStep(r.ss[k - 1], r.steps[k - 1]);
    }
  }

  /**
   The pid is the identifier cut down to 32 bits. The table is right in every state of a run if and
   only if no task is ever stored under a pid that another listed task still has.
   */
  lemma TableRightIff(r: Run)
    requires IsRun(r)
    ensures (forall k :: 0 <= k < |r.ss| ==> TableOk(r.ss[k]))
            <==> (forall k :: 0 <= k < |r.steps| ==> NoClash(r.ss[k], r.steps[k]))
  {
    if forall k :: 0 <= k < |r.steps| ==> NoClash(r.ss[k], r.steps[k]) {
      forall k: nat | k < |r.ss| ensures TableOk(r.ss[k]) {
        NoClashTable(r, k);
      }
    }
    if forall k :: 0 <= k < |r.ss| ==> TableOk(r.ss[k]) {
      forall k: nat | k < |r.steps| ensures NoClash(r.ss[k], r.steps[k]) {
        assert Follows(r, k);
        assert TableOk(r.ss[k]) && TableOk(r.ss[k + 1]);
        TableStep(r.ss[k], r.steps[k]);
      }
    }
  }

  /** A reaper removes its own entry and no other. */
  lemma DeletesOwnEntry(s: State, i: nat)
    requires TableOk(s) && Enabled(s, Delete(i))
    ensures var p := PidOf(s.agents[i]);
            && p in s.tasks && s.tasks[p] == i
            && Apply(s, Delete(i)).tasks == s.tasks - {p}
            && forall q :: q in s.tasks && q != p ==> q in Apply(s, Delete(i)).tasks && s.tasks[q] != i
  {
    assert HasEntry(s, i);
  }

  // When identifiers fit into 32 bits

  ghost predicate SmallIds(r: Run) {
    forall k :: 0 <= k < |r.steps| && r.steps[k].Fork? ==> r.steps[k].id < TWO32
  }

  /** Unclosed tasks have different identifiers, all of them small. */
  ghost predicate IdsOk(s: State) {
    && (forall j :: 0 <= j < |s.agents| && Live(s.agents[j]) ==> s.agents[j].id < TWO32)
    && (forall j, k :: 0 <= j < k < |s.agents| && Live(s.agents[j]) && Live(s.agents[k]) ==>
          s.agents[j].id != s.agents[k].id)
  }

  lemma IdsStep(s: State, step: Step)
    requires IdsOk(s) && Enabled(s, step) && (step.Fork? ==> step.id < TWO32)
    ensures IdsOk(Apply(s, step))
  {
    OnlyForkNames(s, step);
    IdsKept(s, Apply(s, step), step.i);
  }

  /** No step but a fork changes an identifier or brings a task to life, and a fork takes an unused one. */
  lemma OnlyForkNames(s: State, step: Step)
    requires Enabled(s, step) && (step.Fork? ==> step.id < TWO32)
    ensures var s' := Apply(s, step);
            && |s'.agents| == |s.agents| && s'.agents == s.agents[step.i := s'.agents[step.i]]
            && var a, a' := s.agents[step.i], s'.agents[step.i];
               || !Live(a') || (Live(a) && a'.id == a.id)
               || (!Live(a) && a'.id < TWO32 && Unused(s, a'.id))
  {
  }

  lemma IdsKept(s: State, s': State, i: nat)
    requires IdsOk(s) && i < |s.agents| == |s'.agents| && s'.agents == s.agents[i := s'.agents[i]]
    requires var a, a' := s.agents[i], s'.agents[i];
             || !Live(a') || (Live(a) && a'.id == a.id)
             || (!Live(a) && a'.id < TWO32 && Unused(s, a'.id))
    ensures IdsOk(s')
  {
  }

  lemma {:induction false} IdsRun(r: Run, k: nat)
    requires IsRun(r) && SmallIds(r) && k < |r.ss|
    ensures IdsOk(r.ss[k])
  {
    if k > 0 {
      IdsRun(r, k - 1);
      assert Follows(r, k - 1);
      IdsStep(r.ss[k - 1], r.steps[k - 1]);
    }
  }

  /** With identifiers below 2^32 the table is right in every state of every run, also when pids are reused. */
  lemma {:induction false} SmallIdsTable(r: Run, k: nat)
    requires IsRun(r) && SmallIds(r) && k < |r.ss|
    ensures TableOk(r.ss[k])
  {
    if k == 0 {
      InitTable(r.ss[0]);
    } else {
      SmallIdsTable(r, k - 1);
      IdsRun(r, k - 1);
      assert Follows(r, k - 1);
      SmallNoClash(r.ss[k - 1], r.steps[k - 1]);
      TableStep(r.ss[k - 1], r.steps[k - 1]);
    }
  }

  lemma SmallNoClash(s: State, step: Step)
    requires TableOk(s) && IdsOk(s) && Enabled(s, step)
    ensures NoClash(s, step)
  {
  }

  // Without that bound a reaper can remove the entry of another task

  lemma Extend(r: Run, step: Step) returns (r': Run)
    requires IsRun(r) && Enabled(r.ss[|r.steps|], step)
    ensures IsRun(r') && r'.ss == r.ss + [Apply(r.ss[|r.steps|], step)] && r'.steps == r.steps + [step]
    ensures r'.ss[|r'.steps|] == Apply(r.ss[|r.steps|], step)
  {
    r' := Run(r.ss + [Apply(r.ss[|r.steps|], step)], r.steps + [step]);
    forall k: nat ensures Follows(r', k) {
      assert Follows(r, k);
    }
  }

  /** A clone without vfork: fork, start, store, and return with the reaper started. */
  lemma Launch(r: Run, i: nat, id: nat) returns (r': Run)
    requires IsRun(r)
    requires var z := r.ss[|r.steps|];
             i < |z.agents| && z.agents[i].pc.Idle? && !IsVfork(z.agents[i].flags) && Unused(z, id)
    ensures IsRun(r') && r'.ss[0] == r.ss[0]
    ensures var z := r.ss[|r.steps|];
            r'.ss[|r'.steps|] == State(z.agents[i := z.agents[i].(pc := Watching, id := id, ret := Pid(ToI32(id)))],
                                       z.tasks[ToI32(id) := i])
  {
    var z := r.ss[|r.steps|];
    r' := Extend(r, Fork(i, id));
    r' := Extend(r', RunStarts(i));
    r' := Extend(r', Store(i));
    r' := Extend(r', Spawn(i));
    assert r'.ss[|r'.steps|].agents == z.agents[i := z.agents[i].(pc := Watching, id := id, ret := Pid(ToI32(id)))];
  }

  /** Two live tasks whose identifiers differ by 2^32: the reaper of the first one removes the entry of the second. */
  lemma AliasedPids() returns (r: Run)
    ensures IsRun(r)
    ensures var z := r.ss[|r.steps|];
            |z.agents| == 2 && z.agents[0].pc.Closing? && z.agents[1].pc.Watching? && z.tasks == map[] && !TableOk(z)
  {
    var idle := Agent(Idle, 0, 0, 0, false, 0, NotYet);
    r := Run([State([idle, idle], map[])], []);
    r := Launch(r, 0, 1);
    r := Launch(r, 1, 1 + TWO32);
    r := Extend(r, TaskEnds(0));
    r := Extend(r, ReaperWakes(0));
    r := Extend(r, Delete(0));
    assert !HasEntry(r.ss[|r.steps|], 1);
  }

  /** An ordinary thread creation, with flags 0x3D0F00: the call has returned the pid and the task still runs. */
  lemma ThreadCreated() returns (r: Run)
    ensures IsRun(r) && |r.ss[0].agents| == 1 && r.ss[0].agents[0].flags == 0x3D0F00
    ensures var z := r.ss[|r.steps|];
            |z.agents| == 1 && z.agents[0].ret == Pid(1) && !z.agents[0].done && z.agents[0].closes == 0
  {
    var idle := Agent(Idle, 0x3D0F00, 0, 0, false, 0, NotYet);
    r := Run([State([idle], map[])], []);
    r := Launch(r, 0, 1);
  }

  /** A call with flags 0x4000 returns no pid before its task has ended and been closed. */
  lemma VforkReturnsLate(r: Run, k: nat, i: nat)
    requires IsRun(r) && k < |r.ss| && i < |r.ss[0].agents| && r.ss[0].agents[i].flags == 0x4000
    ensures i < |r.ss[k].agents| && (r.ss[k].agents[i].ret.Pid? ==> r.ss[k].agents[i].done && r.ss[k].agents[i].closes == 1)
  {
    ClosedExactlyOnce(r, k, i);
    Shr14(0x4000);
  }

  /** A task that cannot be set up or started: the call fails and the task is closed. */
  lemma StartFails(childStack: u64) returns (r: Run)
    ensures IsRun(r) && |r.ss[|r.steps|].agents| == 1
    ensures var a := r.ss[|r.steps|].agents[0]; a.pc == Finished(true) && a.ret.Eagain? && a.closes == 1
    ensures childStack != 0 ==> SetUpFails(0) in r.steps
  {
    var idle := Agent(Idle, 0, childStack, 0, false, 0, NotYet);
    r := Run([State([idle], map[])], []);
    r := Extend(r, Fork(0, 1));
    r := Extend(r, if childStack != 0 then SetUpFails(0) else RunFails(0));
    r := Extend(r, CloseFailed(0));
  }

  // Every call can come to its end

  function StepsLeft(pc: PC): nat {
    match pc
    case Idle => 9
    case Forked => 8
    case Failing => 1
    case Running => 7
    case Waiting => 6
    case Stored => 5
    case Watching => 4
    case Deleting => 2
    case Closing => 1
    case Finished(_) => 0
  }

  /** How much a call, its task and its reaper still have to do. */
  function Work(a: Agent): nat { 2 * StepsLeft(a.pc) + (if a.done then 0 else 1) }

  /** As long as a call, its task or its reaper is not finished, one of them can do something. */
  lemma SomeStep(s: State, i: nat) returns (step: Step)
    requires i < |s.agents| && !s.agents[i].pc.Finished?
    ensures Enabled(s, step) && step.i == i
    ensures Work(Apply(s, step).agents[i]) < Work(s.agents[i])
  {
    var a := s.agents[i];
    match a.pc
    case Idle => step := ForkFails(i);
    case Forked => step := RunStarts(i);
    case Failing => step := CloseFailed(i);
    case Running => step := if IsVfork(a.flags) then VforkWaits(i) else Store(i);
    case Waiting => step := if a.done then VforkCloses(i) else TaskEnds(i);
    case Stored => step := Spawn(i);
    case Watching => step := if a.done then ReaperWakes(i) else TaskEnds(i);
    case Deleting => step := Delete(i);
    case Closing => step := CloseReaped(i);
  }

  /** From every reachable state every call and its reaper can come to their end; a task that was forked is then closed. */
  lemma {:induction false} CanFinish(r: Run, i: nat) returns (r': Run)
    requires IsRun(r) && i < |r.ss[|r.steps|].agents|
    ensures IsRun(r') && r.steps <= r'.steps && i < |r'.ss[|r'.steps|].agents|
    ensures var a := r'.ss[|r'.steps|].agents[i]; a.pc.Finished? && a.closes == (if a.pc.forked then 1 else 0)
    decreases Work(r.ss[|r.steps|].agents[i])
  {
    var z := r.ss[|r.steps|];
    if z.agents[i].pc.Finished? {
      r' := r;
      AgentsOk(r, |r.steps|, i);
    } else {
      var step := SomeStep(z, i);
      var longer := Extend(r, step);
      r' := CanFinish(longer, i);
    }
  }
}
