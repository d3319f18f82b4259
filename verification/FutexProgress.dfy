/** Who can move: no call gets stuck, and which results a wait can come to when nobody else acts. */
module FutexProgress {
  import opened Machine
  import opened FutexTable
  import opened FutexProtocol
  import opened FutexInvariant
  import opened FutexRuns
  import opened FutexSafety
  import opened FutexQuiet
  import FutexReach

  // Nobody is stuck

  /** About to take the write lock. */
  predicate WantsLock(pc: PC) { pc.Enter? || pc.Leave? }

  predicate InWait(pc: PC) { pc.Check? || pc.Enter? || Registered(pc) }

  lemma WaitMoves(s: State, t: nat) returns (step: Step)
    requires !s.crashed && InWait(PCOf(s, t)) && !PCOf(s, t).Parked? && (WantsLock(PCOf(s, t)) ==> NoReader(s))
    ensures Enabled(s, step) && Actor(step) == t && !step.Begin?
  {
    match PCOf(s, t)
    case Check(_) => step := CheckWord(t);
    case Enter(_) => step := if s.tab.nilled then NilMapPanic(t) else Register(t);
    case Select(_) => step := Park(t);
    case Got(_, _) => step := Resume(t);
    case GotBit(_) => step := Reread(t);
    case Leave(_, _) => step := Deregister(t);
  }

  /** A step of its own that a sleeper can take. */
  lemma SleeperMoves(s: State, t: nat)
    requires Inv(s) && !s.crashed && PCOf(s, t).Parked?
    ensures (exists step: Step :: Enabled(s, step) && Actor(step) == t) <==> (PCOf(s, t).tk.w.timed || s.tab.nilled)
  {
    var tk := PCOf(s, t).tk;
    assert ThreadOk(s.tab, s.closed, s.ts[t]);
    if tk.w.timed {
      assert Enabled(s, Timeout(t)) && Actor(Timeout(t)) == t;
    } else if s.tab.nilled {
      assert Enabled(s, ClosedWord(t)) && Actor(ClosedWord(t)) == t;
    }
  }

  /**
   In every reachable state that has not panicked: a thread with no call can make any call, a sleeper can move by
   itself exactly if it has a timeout or Close has come, and every other thread can move by itself, unless it
   wants the lock while a WAKE_BITSET holds it, and then that one can move. Close can come whenever the lock is free.
   */
  lemma NobodyStuck(r: Run, k: nat, t: nat)
    requires IsRun(r) && k < |r.ss| && !r.ss[k].crashed && t < |r.ss[k].ts|
    ensures CanMove(r.ss[k], t)
    ensures NoReader(r.ss[k]) ==> Enabled(r.ss[k], Close)
  {
    RunInv(r, k);
    ThreadMoves(r.ss[k], t);
    if NoReader(r.ss[k]) {
      NoBitOrClosePanic(r, k, t);
    }
  }

  ghost predicate CanMove(s: State, t: nat) {
    var pc := PCOf(s, t);
    if pc.Idle? || pc.Done? then forall c: Call :: Enabled(s, Begin(t, c))
    else if pc.Parked? then OwnStep(s, t) <==> pc.tk.w.timed || s.tab.nilled
    else if WantsLock(pc) && !NoReader(s) then exists u: nat :: u < |s.ts| && Reading(s.ts[u].pc) && OwnStep(s, u)
    else OwnStep(s, t)
  }

  lemma ThreadMoves(s: State, t: nat)
    requires Inv(s) && !s.crashed && t < |s.ts|
    ensures CanMove(s, t)
  {
    var pc := PCOf(s, t);
    if pc.Idle? || pc.Done? {
    } else if pc.Parked? {
      SleeperMoves(s, t);
    } else if InWait(pc) {
      if !WantsLock(pc) || NoReader(s) {
        var step := WaitMoves(s, t);
      } else {
        var u: nat :| u < |s.ts| && Reading(s.ts[u].pc);
        var step := WakeNeverBlocks(s, u);
        assert OwnStep(s, u);
      }
    } else {
      var step := WakeNeverBlocks(s, t);
    }
  }

  ghost predicate OwnStep(s: State, t: nat) {
    exists step: Step :: Enabled(s, step) && Actor(step) == t
  }

  // A wait by itself

  /** The results that the wait `w` can come to when nobody else acts; with a timeout, reading it can fail too. */
  predicate AloneResult(mem: map<Addr, u32>, w: Wait, res: Result) {
    if w.addr !in mem then res == Fail(EFAULT)
    else if mem[w.addr] != w.val then res == Fail(EAGAIN)
    else w.timed && (res == Fail(ETIMEDOUT) || res == Fail(EFAULT))
  }

  /** A run that is one call of thread `t`, from its beginning, with nobody else acting. */
  ghost predicate OneCall(r: Run, s: State, t: nat, c: Call) {
    && Linked(r) && r.ss[0] == s && r.steps != [] && r.steps[0] == Begin(t, c)
    && forall x :: 1 <= x < |r.steps| ==> Actor(r.steps[x]) == t && !r.steps[x].Begin?
  }

  /** Where such a wait can stand. */
  predicate AloneAt(mem: map<Addr, u32>, pc: PC, w: Wait) {
    match pc
    case Check(x) => x == w
    case Enter(x) => x == w && w.addr in mem && mem[w.addr] == w.val
    case Select(tk) => tk.w == w && w.addr in mem && mem[w.addr] == w.val
    case Parked(tk) => tk.w == w && w.addr in mem && mem[w.addr] == w.val
    case Leave(tk, res) => tk.w == w && AloneResult(mem, w, res)
    case Done(call, res) => call == WaitCall(w) && AloneResult(mem, w, res)
    case _ => false
  }

  lemma AloneStep(s: State, step: Step, t: nat, w: Wait)
    requires s.closed == {} && !s.tab.nilled && Enabled(s, step) && Actor(step) == t && !step.Begin?
    requires AloneAt(s.mem, PCOf(s, t), w)
    ensures var z := Apply(s, step); !z.tab.nilled && z.mem == s.mem && AloneAt(z.mem, PCOf(z, t), w)
  {
  }

  lemma {:induction false} AloneRun(r: Run, s: State, k: nat, t: nat, w: Wait)
    requires OneCall(r, s, t, WaitCall(w)) && Inv(s) && !s.tab.nilled && 1 <= k < |r.ss|
    ensures Inv(r.ss[k]) && !r.ss[k].tab.nilled && r.ss[k].mem == s.mem && AloneAt(s.mem, PCOf(r.ss[k], t), w)
    decreases k
  {
    assert Follows(r, k - 1);
    if k == 1 {
      StepInv(s, Begin(t, WaitCall(w)));
    } else {
      AloneRun(r, s, k - 1, t, w);
      StepInv(r.ss[k - 1], r.steps[k - 1]);
      AloneStep(r.ss[k - 1], r.steps[k - 1], t, w);
    }
  }

  /** Adds a step of `t` to such a run. */
  lemma GoOn(r: Run, s: State, t: nat, c: Call, step: Step) returns (r': Run)
    requires OneCall(r, s, t, c) && Enabled(r.ss[|r.steps|], step) && Actor(step) == t && !step.Begin?
    ensures OneCall(r', s, t, c) && r'.ss[|r'.steps|] == Apply(r.ss[|r.steps|], step)
  {
    r' := Extend(r, step);
  }

  lemma Called(s: State, t: nat, c: Call) returns (r: Run)
    requires Enabled(s, Begin(t, c))
    ensures OneCall(r, s, t, c) && r.ss[|r.steps|] == Apply(s, Begin(t, c))
  {
    r := Extend(Run([s], []), Begin(t, c));
  }

  /** The word matches: the wait gets to the point of registering. */
  lemma Matched(s: State, t: nat, w: Wait) returns (r: Run)
    requires Enabled(s, Begin(t, WaitCall(w))) && w.addr in s.mem && s.mem[w.addr] == w.val
    ensures OneCall(r, s, t, WaitCall(w)) && r.ss[|r.steps|] == Go(s, t, Enter(w))
  {
    r := Called(s, t, WaitCall(w));
    r := GoOn(r, s, t, WaitCall(w), CheckWord(t));
    assert s.ts[t := s.ts[t].(pc := Check(w))][t := s.ts[t].(pc := Enter(w))] == s.ts[t := s.ts[t].(pc := Enter(w))];
  }

  lemma MismatchReturns(s: State, t: nat, w: Wait, res: Result) returns (r: Run)
    requires Enabled(s, Begin(t, WaitCall(w))) && !(w.addr in s.mem && s.mem[w.addr] == w.val) && AloneResult(s.mem, w, res)
    ensures OneCall(r, s, t, WaitCall(w)) && PCOf(r.ss[|r.steps|], t) == Done(WaitCall(w), res)
  {
    r := Called(s, t, WaitCall(w));
    r := GoOn(r, s, t, WaitCall(w), CheckWord(t));
  }

  /** A timed wait of either kind registers, times out and deregisters. */
  lemma TimeoutReturns(s: State, t: nat, w: Wait) returns (r: Run)
    requires !s.tab.nilled && NoReader(s) && Enabled(s, Begin(t, WaitCall(w))) && w.timed
    requires w.addr in s.mem && s.mem[w.addr] == w.val
    ensures OneCall(r, s, t, WaitCall(w)) && PCOf(r.ss[|r.steps|], t) == Done(WaitCall(w), Fail(ETIMEDOUT))
  {
    r := Matched(s, t, w);
    r := GoOn(r, s, t, WaitCall(w), Register(t));
    var tk := PCOf(r.ss[|r.steps|], t).tk;
    assert tk.w == w;
    r := GoOn(r, s, t, WaitCall(w), Timeout(t));
    assert NoReader(r.ss[|r.steps|]);
    r := GoOn(r, s, t, WaitCall(w), Deregister(t));
  }

  lemma BadTimeoutReturns(s: State, t: nat, w: Wait) returns (r: Run)
    requires Enabled(s, Begin(t, WaitCall(w))) && w.timed && w.addr in s.mem && s.mem[w.addr] == w.val
    ensures OneCall(r, s, t, WaitCall(w)) && PCOf(r.ss[|r.steps|], t) == Done(WaitCall(w), Fail(EFAULT))
  {
    r := Matched(s, t, w);
    r := GoOn(r, s, t, WaitCall(w), BadTimeout(t));
  }

  /**
   What a WAIT or WAIT_BITSET returns when nobody else acts, before Close and with the lock free: EFAULT if the
   word cannot be read, EAGAIN if it is not `val`; otherwise it can time out, or find its timeout unreadable,
   exactly if it was given one, and can return nothing else.
   */
  lemma WaitAloneIff(s: State, t: nat, w: Wait, res: Result)
    requires Inv(s) && !s.tab.nilled && NoReader(s) && Enabled(s, Begin(t, WaitCall(w)))
    ensures (exists r: Run :: OneCall(r, s, t, WaitCall(w)) && PCOf(r.ss[|r.steps|], t) == Done(WaitCall(w), res))
            <==> AloneResult(s.mem, w, res)
  {
    if AloneResult(s.mem, w, res) {
      var r;
      if !(w.addr in s.mem && s.mem[w.addr] == w.val) {
        r := MismatchReturns(s, t, w, res);
      } else if res == Fail(ETIMEDOUT) {
        r := TimeoutReturns(s, t, w);
      } else {
        r := BadTimeoutReturns(s, t, w);
      }
    } else {
      forall r: Run | OneCall(r, s, t, WaitCall(w)) ensures PCOf(r.ss[|r.steps|], t) != Done(WaitCall(w), res) {
        AloneRun(r, s, |r.steps|, t, w);
      }
    }
  }

  // A registered waiter by itself

  /** A waiter in its loop: about to enter the select, asleep, or just woken. */
  predicate InLoop(pc: PC) { pc.Select? || pc.Parked? || pc.Got? || pc.GotBit? }

  /** What a waiter in its loop can return when nobody else acts. */
  predicate LoopResult(mem: map<Addr, u32>, pc: PC, res: Result)
    requires InLoop(pc)
  {
    var w := pc.tk.w;
    if pc.Got? && pc.v != w.val then res == Ok(0)
    else if pc.GotBit? && w.addr !in mem then res == Fail(EFAULT)
    else if pc.GotBit? && mem[w.addr] != w.val then res == Ok(0)
    else w.timed && res == Fail(ETIMEDOUT)
  }

  /** A run with nobody but `t` acting, inside its present call. */
  ghost predicate OwnRun(r: Run, s: State, t: nat) {
    && Linked(r) && r.ss[0] == s
    && forall x :: 0 <= x < |r.steps| ==> Actor(r.steps[x]) == t && !r.steps[x].Begin?
  }

  /** Where a waiter that was at `pc` can stand; once it is out of the woken state it waits again or is leaving. */
  predicate LoopAt(mem: map<Addr, u32>, pc: PC, q: PC)
    requires InLoop(pc)
  {
    match q
    case Select(tk) => tk == pc.tk && !Decided(mem, pc)
    case Parked(tk) => tk == pc.tk && !Decided(mem, pc)
    case Leave(tk, res) => tk == pc.tk && LoopResult(mem, pc, res)
    case Done(call, res) => call == WaitCall(pc.tk.w) && LoopResult(mem, pc, res)
    case _ => q == pc
  }

  /** Woken for good. */
  predicate Decided(mem: map<Addr, u32>, pc: PC)
    requires InLoop(pc)
  {
    var w := pc.tk.w;
    (pc.Got? && pc.v != w.val) || (pc.GotBit? && (w.addr !in mem || mem[w.addr] != w.val))
  }

  lemma LoopStep(s: State, step: Step, t: nat, pc: PC)
    requires s.closed == {} && !s.tab.nilled && Enabled(s, step) && Actor(step) == t && !step.Begin?
    requires InLoop(pc) && LoopAt(s.mem, pc, PCOf(s, t))
    ensures var z := Apply(s, step); !z.tab.nilled && z.mem == s.mem && LoopAt(z.mem, pc, PCOf(z, t))
  {
  }

  lemma {:induction false} LoopRun(r: Run, s: State, k: nat, t: nat)
    requires OwnRun(r, s, t) && Inv(s) && !s.tab.nilled && k < |r.ss| && InLoop(PCOf(s, t))
    ensures Inv(r.ss[k]) && !r.ss[k].tab.nilled && r.ss[k].mem == s.mem && LoopAt(s.mem, PCOf(s, t), PCOf(r.ss[k], t))
  {
    if k > 0 {
      LoopRun(r, s, k - 1, t);
      assert Follows(r, k - 1);
      StepInv(r.ss[k - 1], r.steps[k - 1]);
      LoopStep(r.ss[k - 1], r.steps[k - 1], t, PCOf(s, t));
    }
  }

  lemma GoOwn(r: Run, s: State, t: nat, step: Step) returns (r': Run)
    requires OwnRun(r, s, t) && Enabled(r.ss[|r.steps|], step) && Actor(step) == t && !step.Begin?
    ensures OwnRun(r', s, t) && r'.ss[|r'.steps|] == Apply(r.ss[|r.steps|], step)
  {
    r' := Extend(r, step);
  }

  /** The waiter acts on what woke it. */
  lemma ActsOn(s: State, t: nat) returns (r: Run)
    requires !s.crashed && NoReader(s) && InLoop(PCOf(s, t))
    ensures OwnRun(r, s, t) && !r.ss[|r.steps|].crashed && NoReader(r.ss[|r.steps|])
    ensures var q, tk, mem := PCOf(r.ss[|r.steps|], t), PCOf(s, t).tk, s.mem;
            if Decided(mem, PCOf(s, t)) then q.Leave? && q.tk == tk && LoopResult(mem, PCOf(s, t), q.res)
            else (q.Select? || q.Parked?) && q.tk == tk
  {
    r := Run([s], []);
    if PCOf(s, t).Got? {
      r := GoOwn(r, s, t, Resume(t));
    } else if PCOf(s, t).GotBit? {
      r := GoOwn(r, s, t, Reread(t));
    }
  }

  /**
   What a waiter in its loop returns when nobody else acts, before Close and with the lock free: 0 if it was woken
   by another value than `val` or finds its word changed, EFAULT if it cannot read its word again; in all other
   cases it waits on, and can only time out, if it was given a timeout.
   */
  lemma LoopAloneIff(s: State, t: nat, res: Result)
    requires Inv(s) && !s.tab.nilled && !s.crashed && NoReader(s) && InLoop(PCOf(s, t))
    ensures (exists r: Run :: OwnRun(r, s, t) && PCOf(r.ss[|r.steps|], t) == Done(WaitCall(PCOf(s, t).tk.w), res))
            <==> LoopResult(s.mem, PCOf(s, t), res)
  {
    if LoopResult(s.mem, PCOf(s, t), res) {
      var r := ActsOn(s, t);
      if !Decided(s.mem, PCOf(s, t)) {
        r := GoOwn(r, s, t, Timeout(t));
      }
      r := GoOwn(r, s, t, Deregister(t));
    } else {
      forall r: Run | OwnRun(r, s, t) ensures PCOf(r.ss[|r.steps|], t) != Done(WaitCall(PCOf(s, t).tk.w), res) {
        LoopRun(r, s, |r.steps|, t);
      }
    }
  }

  // A WAKE by itself

  /** What a WAKE(n) on `a` comes to: the word is read only if somebody is registered, and that can fail. */
  function WakeResult(s: State, a: Addr, n: u32): Result {
    if a in s.tab.awaits && a !in s.mem then Fail(EFAULT)
    else Ok(ToI32(Min(n, Total(ParkedIn(ByAddr(a)), s.ts))))
  }

  /** Where a WAKE by itself stands, when `k` waiters slept at the address at its start and `res` is to come out. */
  ghost predicate WakesAt(s: State, u: nat, a: Addr, n: u32, k: nat, res: Result) {
    var asleep := Total(ParkedIn(ByAddr(a)), s.ts);
    match PCOf(s, u)
    case Look(b, m) => b == a && m == n && asleep == k && res == WakeResult(s, a, n)
    case Hold(b, m, c) => b == a && m == n && asleep == k && AllOn(s, a, c) && a in s.tab.awaits && res == WakeResult(s, a, n)
    case Send(b, m, c, _, i) =>
      b == a && m == n && a in s.mem && AllOn(s, a, c) && asleep + ToU32(i) == k && res == Ok(ToI32(Min(n, k)))
    case Done(call, r) => call == WakeCall(a, n) && r == res
    case _ => false
  }

  /** Every sleeper of an address waits on the channel in the table. */
  lemma SleepersStored(s: State, a: Addr)
    requires Inv(s) && !s.tab.nilled
    ensures forall i :: 0 <= i < |s.ts| && Sleeper(s.ts[i].pc, ByAddr(a)) ==> Stores(s.tab, AtAddr(a), s.ts[i].pc.tk.ch1)
  {
    forall i | 0 <= i < |s.ts| && Sleeper(s.ts[i].pc, ByAddr(a)) ensures Stores(s.tab, AtAddr(a), s.ts[i].pc.tk.ch1) {
      assert ThreadOk(s.tab, s.closed, s.ts[i]);
    }
  }

  lemma LookupAt(s: State, u: nat, a: Addr, n: u32, k: nat, res: Result)
    requires Inv(s) && !s.tab.nilled && Enabled(s, Lookup(u)) && WakesAt(s, u, a, n, k, res)
    ensures WakesAt(Apply(s, Lookup(u)), u, a, n, k, res)
  {
    var z := Apply(s, Lookup(u));
    SleepersStored(s, a);
    TotalUpdate(ParkedIn(ByAddr(a)), s.ts, u, z.ts[u]);
    if a !in s.tab.awaits {
      NoSleeper(s, ByAddr(a));
    }
  }

  lemma ReadWordAt(s: State, u: nat, a: Addr, n: u32, k: nat, res: Result)
    requires Enabled(s, ReadWord(u)) && WakesAt(s, u, a, n, k, res)
    ensures WakesAt(Apply(s, ReadWord(u)), u, a, n, k, res)
  {
    TotalUpdate(ParkedIn(ByAddr(a)), s.ts, u, Apply(s, ReadWord(u)).ts[u]);
  }

  lemma SendToAt(s: State, u: nat, x: nat, a: Addr, n: u32, k: nat, res: Result)
    requires Inv(s) && Enabled(s, SendTo(u, x)) && WakesAt(s, u, a, n, k, res)
    ensures WakesAt(Apply(s, SendTo(u, x)), u, a, n, k, res)
  {
    var z, m := Apply(s, SendTo(u, x)), ParkedIn(ByAddr(a));
    assert ThreadOk(s.tab, s.closed, s.ts[u]);
    IncCounts(PCOf(s, u).i, n);
    SameAddress(s, u, x);
    TwoMove(s, SendTo(u, x));
    TotalUpdate(m, s.ts, u, z.ts[u]);
    TotalUpdate(m, s.ts[u := z.ts[u]], x, z.ts[x]);
  }

  lemma SendNoneAt(s: State, u: nat, a: Addr, n: u32, k: nat, res: Result)
    requires Inv(s) && Enabled(s, SendNone(u)) && WakesAt(s, u, a, n, k, res)
    ensures WakesAt(Apply(s, SendNone(u)), u, a, n, k, res)
  {
    var pc := PCOf(s, u);
    assert ThreadOk(s.tab, s.closed, s.ts[u]);
    IncCounts(pc.i, n);
    SignedBack(pc.i);
    if pc.i != ToI32(n) {
      forall i | 0 <= i < |s.ts| ensures !Sleeper(s.ts[i].pc, ByAddr(a)) {
        assert !WordReceiver(s.ts[i].pc, pc.ch);
      }
      NoSleeper(s, ByAddr(a));
    }
  }

  lemma WakesStep(s: State, step: Step, u: nat, a: Addr, n: u32, k: nat, res: Result)
    requires Inv(s) && !s.tab.nilled && Enabled(s, step) && Actor(step) == u && !step.Begin? && WakesAt(s, u, a, n, k, res)
    ensures WakesAt(Apply(s, step), u, a, n, k, res) && !Apply(s, step).tab.nilled
  {
    match step
    case Lookup(_) => LookupAt(s, u, a, n, k, res);
    case ReadWord(_) => ReadWordAt(s, u, a, n, k, res);
    case SendTo(_, x) => SendToAt(s, u, x, a, n, k, res);
    case SendNone(_) => SendNoneAt(s, u, a, n, k, res);
  }

  lemma {:induction false} WakesRun(r: Run, s: State, j: nat, u: nat, a: Addr, n: u32)
    requires OneCall(r, s, u, WakeCall(a, n)) && Inv(s) && !s.tab.nilled && 1 <= j < |r.ss|
    ensures Inv(r.ss[j]) && !r.ss[j].tab.nilled
    ensures WakesAt(r.ss[j], u, a, n, Total(ParkedIn(ByAddr(a)), s.ts), WakeResult(s, a, n))
    decreases j
  {
    var k, res := Total(ParkedIn(ByAddr(a)), s.ts), WakeResult(s, a, n);
    assert Follows(r, j - 1);
    if j == 1 {
      StepInv(s, Begin(u, WakeCall(a, n)));
      TotalUpdate(ParkedIn(ByAddr(a)), s.ts, u, r.ss[1].ts[u]);
    } else {
      WakesRun(r, s, j - 1, u, a, n);
      StepInv(r.ss[j - 1], r.steps[j - 1]);
      WakesStep(r.ss[j - 1], r.steps[j - 1], u, a, n, k, res);
    }
  }

  /** There is such a run. */
  lemma WakeReturns(s: State, u: nat, a: Addr, n: u32) returns (r: Run)
    requires Inv(s) && !s.tab.nilled && Enabled(s, Begin(u, WakeCall(a, n)))
    ensures OneCall(r, s, u, WakeCall(a, n)) && PCOf(r.ss[|r.steps|], u).Done?
  {
    var step := Begin(u, WakeCall(a, n));
    StepInv(s, step);
    var rest := FutexReach.AloneRun(Apply(s, step), u, a);
    r := Prepend(s, step, rest);
    forall x | 1 <= x < |r.steps| ensures Actor(r.steps[x]) == u && !r.steps[x].Begin? {
      assert r.steps[x] == rest.steps[x - 1] && rest.steps[x - 1] in rest.steps;
    }
  }

  /**
   What futex(a, FUTEX_WAKE, n) returns when nobody else acts, before Close: EFAULT if somebody is registered at
   the address and the word cannot be read, and otherwise the smaller of `n` and the number of sleepers there.
   */
  lemma WakeAloneIff(s: State, u: nat, a: Addr, n: u32, res: Result)
    requires Inv(s) && !s.tab.nilled && Enabled(s, Begin(u, WakeCall(a, n)))
    ensures (exists r: Run :: OneCall(r, s, u, WakeCall(a, n)) && PCOf(r.ss[|r.steps|], u) == Done(WakeCall(a, n), res))
            <==> res == WakeResult(s, a, n)
  {
    var made := WakeReturns(s, u, a, n);
    WakesRun(made, s, |made.steps|, u, a, n);
    forall r: Run | OneCall(r, s, u, WakeCall(a, n)) && PCOf(r.ss[|r.steps|], u) == Done(WakeCall(a, n), res)
      ensures res == WakeResult(s, a, n)
    {
      WakesRun(r, s, |r.steps|, u, a, n);
    }
  }
}
