/** Channels, wake bounds and the destructor of the futex protocol. */
module FutexSafety {
  import opened Machine
  import opened FutexTable
  import opened FutexProtocol
  import opened FutexInvariant
  import opened FutexRuns

  // A channel serves one address or one mask

  /** A WAKE is for the waits on its address; a WAKE_BITSET for the bitset waits whose mask has a bit in common with its own. */
  predicate MeantFor(wake: Call, wait: Call) {
    && wait.WaitCall?
    && match wake
       case WaitCall(_) => false
       case WakeCall(a, _) => wait.w.addr == a
       case WakeBitsCall(m, _) => wait.w.kind.Bits? && ShareBit(wait.w.kind.mask, m)
  }

  lemma RendezvousMeant(s: State, step: Step)
    requires Inv(s) && Enabled(s, step) && (step.SendTo? || step.PumpTo?)
    ensures !PCOf(s, step.t).Idle? && !PCOf(s, step.r).Idle?
    ensures MeantFor(CallOf(PCOf(s, step.t)), CallOf(PCOf(s, step.r)))
  {
    assert ThreadOk(s.tab, s.closed, s.ts[step.t]) && ThreadOk(s.tab, s.closed, s.ts[step.r]);
    if step.PumpTo? {
      MeetsBits(PCOf(s, step.t).b, PCOf(s, step.t).mask);
    }
  }

  /** Every rendezvous of every run joins a wake call with a wait call it is meant for, by the arguments they were made with. */
  lemma DeliveriesAimed(r: Run, k: nat) returns (i: nat, j: nat)
    requires IsRun(r) && k < |r.steps| && (r.steps[k].SendTo? || r.steps[k].PumpTo?)
    ensures i < k && Begins(r.steps[i], r.steps[k].t) && forall x :: i < x < k ==> !Begins(r.steps[x], r.steps[k].t)
    ensures j < k && Begins(r.steps[j], r.steps[k].r) && forall x :: j < x < k ==> !Begins(r.steps[x], r.steps[k].r)
    ensures MeantFor(r.steps[i].call, r.steps[j].call)
  {
    assert MeantBy(r, k) by {
      RunInv(r, k);
      assert Follows(r, k);
      RendezvousMeant(r.ss[k], r.steps[k]);
    }
    i := CallBegun(r, k, r.steps[k].t);
    j := CallBegun(r, k, r.steps[k].r);
  }

  ghost predicate MeantBy(r: Run, k: nat)
    requires |r.ss| == |r.steps| + 1 && k < |r.steps| && (r.steps[k].SendTo? || r.steps[k].PumpTo?)
  {
    var p, q := PCOf(r.ss[k], r.steps[k].t), PCOf(r.ss[k], r.steps[k].r);
    !p.Idle? && !q.Idle? && MeantFor(CallOf(p), CallOf(q))
  }

  /** The channel exists and no table entry holds it. */
  ghost predicate Removed(s: State, c: Chan) {
    c < |s.tab.made| && forall k: Key :: !Stores(s.tab, k, c)
  }

  /** Nobody registered holds the channel either. */
  ghost predicate Retired(s: State, c: Chan) {
    && Removed(s, c)
    && forall i :: 0 <= i < |s.ts| ==> !Holds(s.ts[i].pc, c)
  }

  predicate Holds(pc: PC, c: Chan) {
    Registered(pc) && (pc.tk.ch1 == c || (pc.tk.w.kind.Bits? && pc.tk.ch2 == c))
  }

  lemma RemovedRetired(s: State, c: Chan)
    requires Inv(s) && !s.tab.nilled && Removed(s, c)
    ensures Retired(s, c)
  {
  }

  lemma AdmitRetired(tab: Tables, w: Wait, c: Chan)
    requires c < |tab.made| && forall k: Key :: !Stores(tab, k, c)
    ensures var (tab', tk) := Admit(tab, w);
            && c < |tab'.made| && (forall k: Key :: !Stores(tab', k, c))
            && tk.ch1 != c && (w.kind.Bits? ==> tk.ch2 != c)
  {
    assert !Stores(tab, AtAddr(w.addr), c);
    var t1 := AddAddr(tab, w.addr).0;
    assert forall k: Key :: Stores(t1, k, c) ==> Stores(tab, k, c);
    if w.kind.Bits? {
      assert !Stores(t1, AtMask(w.kind.mask), c);
      var t2 := AddMask(t1, w.kind.mask).0;
      assert forall k: Key :: Stores(t2, k, c) ==> Stores(t1, k, c);
    }
  }

  lemma DismissRetired(tab: Tables, w: Wait, k: Key, c: Chan)
    requires Stores(Dismiss(tab, w), k, c)
    ensures Stores(tab, k, c)
  {
  }

  lemma RetiredStep(s: State, step: Step, c: Chan)
    requires Enabled(s, step) && Retired(s, c)
    ensures Retired(Apply(s, step), c)
  {
    if step.Register? {
      AdmitRetired(s.tab, PCOf(s, step.t).w, c);
    } else {
      RetiredOther(s, step, c);
      RemovedStays(s, step, c);
    }
  }

  lemma RemovedStays(s: State, step: Step, c: Chan)
    requires Enabled(s, step) && Removed(s, c) && !step.Register?
    ensures Removed(Apply(s, step), c) && |Apply(s, step).ts| == |s.ts|
  {
    if step.Deregister? {
      forall k: Key | Stores(Apply(s, step).tab, k, c) ensures false {
        DismissRetired(s.tab, PCOf(s, step.t).tk.w, k, c);
      }
    }
  }

  /** Only a registration hands out channels. */
  lemma TicketKept(s: State, step: Step, i: nat)
    requires Enabled(s, step) && !step.Register? && Registered(PCOf(Apply(s, step), i))
    ensures Registered(PCOf(s, i)) && PCOf(s, i).tk == PCOf(Apply(s, step), i).tk
  {
    if Actor(step) != i && !Receives(step, i) {
      OthersStay(s, step, i);
    }
  }

  lemma RetiredOther(s: State, step: Step, c: Chan)
    requires Enabled(s, step) && Retired(s, c) && !step.Register?
    ensures forall i :: 0 <= i < |s.ts| ==> !Holds(PCOf(Apply(s, step), i), c)
  {
    forall i: nat | i < |s.ts| && Registered(PCOf(Apply(s, step), i)) ensures !Holds(PCOf(Apply(s, step), i), c) {
      TicketKept(s, step, i);
      assert !Holds(s.ts[i].pc, c);
    }
  }

  lemma {:induction false} RetiredRun(r: Run, j: nat, k: nat, c: Chan)
    requires IsRun(r) && j <= k < |r.ss| && Retired(r.ss[j], c)
    ensures Retired(r.ss[k], c)
    decreases k
  {
    if k > j {
      RetiredRun(r, j, k - 1, c);
      assert Follows(r, k - 1);
      RetiredStep(r.ss[k - 1], r.steps[k - 1], c);
    }
  }

  lemma NoSendOn(s: State, step: Step, c: Chan)
    requires Retired(s, c) && Enabled(s, step) && step.SendTo?
    ensures PCOf(s, step.t).ch != c
  {
  }

  /**
   Once the entry of a channel has been removed, the channel is dead for good: whatever is
   registered later, nobody ever waits on it again and no waker that still holds it reaches anybody.
   */
  lemma StaleChannelReachesNobody(r: Run, j: nat, k: nat, c: Chan)
    requires IsRun(r) && j <= k < |r.ss|
    requires !r.ss[j].tab.nilled && Removed(r.ss[j], c)
    ensures Retired(r.ss[k], c)
    ensures k < |r.steps| && r.steps[k].SendTo? ==>
              PCOf(r.ss[k], r.steps[k].t).Send? && PCOf(r.ss[k], r.steps[k].t).ch != c
  {
    RunInv(r, j);
    RemovedRetired(r.ss[j], c);
    RetiredRun(r, j, k, c);
    if k < |r.steps| && r.steps[k].SendTo? {
      assert Follows(r, k);
      NoSendOn(r.ss[k], r.steps[k], c);
    }
  }

  // One wake call

  /** Inside a wake call, or just returned from one. */
  predicate InWake(pc: PC) {
    pc.Look? || pc.Hold? || pc.Send? || pc.Lock? || Reading(pc) || (pc.Done? && !pc.call.WaitCall?)
  }

  /** The `val` argument of the wake. */
  function Asked(pc: PC): u32
    requires InWake(pc)
  {
    if pc.Done? then pc.call.n else pc.n
  }

  /** The deliveries the call claims so far: the loop counter, or the returned value, read as unsigned. */
  function Claimed(pc: PC): nat {
    match pc
    case Send(_, _, _, _, i) => ToU32(i)
    case Scan(_, _, i, _) => ToU32(i)
    case Pump(_, _, i, _, _) => ToU32(i)
    case Done(_, Ok(v)) => ToU32(v)
    case _ => 0
  }

  predicate HandsOver(step: Step, u: nat) { (step.SendTo? || step.PumpTo?) && step.t == u }

  /** The deliveries thread `u` made in steps `j` to `k`. */
  function Handed(r: Run, j: nat, k: nat, u: nat): nat
    requires j <= k <= |r.steps|
    decreases k
  {
    if k == j then 0 else Handed(r, j, k - 1, u) + (if HandsOver(r.steps[k - 1], u) then 1 else 0)
  }

  /** Nobody else moves a thread that is in a wake call. */
  lemma Undisturbed(s: State, step: Step, u: nat)
    requires Enabled(s, step) && InWake(PCOf(s, u)) && Actor(step) != u
    ensures PCOf(Apply(s, step), u) == PCOf(s, u)
  {
    OthersStay(s, step, u);
  }

  /** One step of a wake call: the call and its bound stay, and the count goes up exactly with a delivery. */
  predicate WakeMove(p: PC, q: PC, delivered: bool) {
    && InWake(p) && InWake(q) && Asked(q) == Asked(p)
    && Claimed(q) == Claimed(p) + (if delivered then 1 else 0) <= Asked(q)
  }

  /** An upper bound on the steps a wake can still take by itself. */
  function Fuel(pc: PC): nat {
    match pc
    case Look(_, n) => n + 3
    case Hold(_, n, _) => n + 2
    case Send(_, n, _, _, i) => if ToU32(i) <= n then n - ToU32(i) + 1 else 0
    case Scan(_, n, i, todo) => (if ToU32(i) <= n then n - ToU32(i) else 0) + 2 * |todo| + 1
    case Pump(_, n, i, todo, _) => (if ToU32(i) <= n then n - ToU32(i) else 0) + 2 * |todo| + 2
    case _ => 0
  }

  lemma WordStep(s: State, step: Step, u: nat)
    requires u < |s.ts| && WakerOk(s.tab, s.ts[u].pc) && Enabled(s, step) && Actor(step) == u
    requires PCOf(s, u).Look? || PCOf(s, u).Hold? || PCOf(s, u).Send?
    requires !step.SendPanic?
    ensures WakeMove(PCOf(s, u), PCOf(Apply(s, step), u), HandsOver(step, u))
    ensures Fuel(PCOf(Apply(s, step), u)) < Fuel(PCOf(s, u))
  {
    var p := PCOf(s, u);
    if p.Send? {
      IncCounts(p.i, p.n);
    }
  }

  /** The counter of a WAKE_BITSET and its bound, from one program point to the next. */
  lemma BitsMove(p: PC, q: PC, delivered: bool)
    requires Reading(p) && ToU32(p.i) <= p.n && (delivered ==> p.i != ToI32(p.n))
    requires if q.Done?
             then !delivered && !q.call.WaitCall? && q.call.n == p.n && q.res == Ok(p.i)
             else Reading(q) && q.n == p.n && q.i == (if delivered then Inc(p.i) else p.i)
    requires delivered ==> p.Pump? && q.Pump? && q.todo == p.todo
    requires !delivered && Reading(q) ==> 2 * |q.todo| + (if q.Pump? then 1 else 0) < 2 * |p.todo| + (if p.Pump? then 1 else 0)
    ensures WakeMove(p, q, delivered) && Fuel(q) < Fuel(p)
  {
    IncCounts(p.i, p.n);
  }

  lemma BitsStep(s: State, step: Step, u: nat)
    requires u < |s.ts| && WakerOk(s.tab, s.ts[u].pc) && Enabled(s, step) && Actor(step) == u
    requires PCOf(s, u).Lock? || Reading(PCOf(s, u))
    requires !step.PumpPanic?
    ensures WakeMove(PCOf(s, u), PCOf(Apply(s, step), u), HandsOver(step, u))
    ensures Reading(PCOf(s, u)) ==> Fuel(PCOf(Apply(s, step), u)) < Fuel(PCOf(s, u))
  {
    var p, q := PCOf(s, u), PCOf(Apply(s, step), u);
    if step.Bucket? {
      assert |p.todo - {step.b}| == |p.todo| - 1;
    }
    if Reading(p) {
      BitsMove(p, q, HandsOver(step, u));
    }
  }

  lemma WakeStepCounts(s: State, step: Step, u: nat)
    requires Inv(s) && Enabled(s, step)
    requires InWake(PCOf(s, u)) && Claimed(PCOf(s, u)) <= Asked(PCOf(s, u))
    requires !(step.Begin? && step.t == u)
    ensures WakeMove(PCOf(s, u), PCOf(Apply(s, step), u), HandsOver(step, u))
  {
    var p := PCOf(s, u);
    assert ThreadOk(s.tab, s.closed, s.ts[u]);
    if Actor(step) != u {
      Undisturbed(s, step, u);
    } else if step.SendPanic? || step.PumpPanic? {
    } else if p.Lock? || Reading(p) {
      BitsStep(s, step, u);
    } else {
      WordStep(s, step, u);
    }
  }

  /** Every step taken while `u` stays in the call is a move of that call. */
  ghost predicate MovesOnly(r: Run, j: nat, k: nat, u: nat)
    requires |r.ss| == |r.steps| + 1
  {
    forall x :: j <= x < k && x < |r.steps| && InWake(PCOf(r.ss[x], u))
                && Claimed(PCOf(r.ss[x], u)) <= Asked(PCOf(r.ss[x], u)) ==>
      WakeMove(PCOf(r.ss[x], u), PCOf(r.ss[x + 1], u), HandsOver(r.steps[x], u))
  }

  lemma {:induction false} MovesAddUp(r: Run, j: nat, k: nat, u: nat)
    requires |r.ss| == |r.steps| + 1 && j <= k <= |r.steps| && MovesOnly(r, j, k, u)
    requires PCOf(r.ss[j], u).Look? || PCOf(r.ss[j], u).Lock?
    ensures var pc := PCOf(r.ss[k], u);
            InWake(pc) && Asked(pc) == PCOf(r.ss[j], u).n && Handed(r, j, k, u) == Claimed(pc) <= Asked(pc)
    decreases k
  {
    if k > j {
      MovesAddUp(r, j, k - 1, u);
    }
  }

  lemma CountFromStart(r: Run, j: nat, k: nat, u: nat)
    requires IsRun(r) && j <= k < |r.ss|
    requires PCOf(r.ss[j], u).Look? || PCOf(r.ss[j], u).Lock?
    requires forall x :: j <= x < k ==> !(r.steps[x].Begin? && r.steps[x].t == u)
    ensures var pc := PCOf(r.ss[k], u);
            InWake(pc) && Asked(pc) == PCOf(r.ss[j], u).n && Handed(r, j, k, u) == Claimed(pc) <= Asked(pc)
  {
    forall x | j <= x < k && InWake(PCOf(r.ss[x], u)) && Claimed(PCOf(r.ss[x], u)) <= Asked(PCOf(r.ss[x], u))
      ensures WakeMove(PCOf(r.ss[x], u), PCOf(r.ss[x + 1], u), HandsOver(r.steps[x], u))
    {
      RunInv(r, x);
      assert Follows(r, x);
      WakeStepCounts(r.ss[x], r.steps[x], u);
    }
    MovesAddUp(r, j, k, u);
  }

  /** What a wake has delivered at a program point, or returned, is exactly what it handed over, and not more than `n`. */
  predicate CountsRight(pc: PC, n: u32, handed: nat) {
    InWake(pc) && Asked(pc) == n && handed == Claimed(pc) <= n
  }

  /**
   Wake bound: for every `val` given to the call, also one with the top bit set, a wake makes at most `val`
   deliveries, and its signed result read as unsigned is the number it made.
   */
  lemma WakeCountExact(r: Run, j: nat, k: nat, u: nat, c: Call)
    requires IsRun(r) && j < k < |r.ss| && r.steps[j] == Begin(u, c) && !c.WaitCall?
    requires forall x :: j < x < k ==> !Begins(r.steps[x], u)
    ensures CountsRight(PCOf(r.ss[k], u), c.n, Handed(r, j, k, u))
    ensures PCOf(r.ss[k], u).Done? ==> PCOf(r.ss[k], u).call == c
  {
    assert Follows(r, j);
    WakeStarts(r.ss[j], u, c);
    CountFromStart(r, j + 1, k, u);
    HandedLater(r, j, k, u);
    CallAnswered(r, j, k, u, c);
    assert CallOf(PCOf(r.ss[k], u)) == c;
  }

  lemma WakeStarts(s: State, u: nat, c: Call)
    requires Enabled(s, Begin(u, c)) && !c.WaitCall?
    ensures var pc := PCOf(Apply(s, Begin(u, c)), u); (pc.Look? || pc.Lock?) && pc.n == c.n
  {
  }

  lemma {:induction false} HandedLater(r: Run, j: nat, k: nat, u: nat)
    requires j < k <= |r.steps| && !HandsOver(r.steps[j], u)
    ensures Handed(r, j, k, u) == Handed(r, j + 1, k, u)
    decreases k
  {
    if k > j + 1 {
      HandedLater(r, j, k - 1, u);
    }
  }

  predicate Waking(pc: PC) { pc.Look? || pc.Hold? || pc.Send? || Reading(pc) }

  /** Each step of a wake uses up fuel, and nobody else's step gives any back. */
  lemma WakeTerminates(s: State, step: Step, u: nat)
    requires Inv(s) && Enabled(s, step) && Waking(PCOf(s, u)) && !Apply(s, step).crashed
    ensures Actor(step) != u ==> PCOf(Apply(s, step), u) == PCOf(s, u)
    ensures Actor(step) == u ==> Fuel(PCOf(Apply(s, step), u)) < Fuel(PCOf(s, u))
  {
    assert ThreadOk(s.tab, s.closed, s.ts[u]);
    if Actor(step) != u {
      Undisturbed(s, step, u);
    } else if Reading(PCOf(s, u)) {
      BitsStep(s, step, u);
    } else {
      WordStep(s, step, u);
    }
  }

  /** The steps that thread `u` itself takes from state `j` to state `k`. */
  function OwnSteps(r: Run, j: nat, k: nat, u: nat): nat
    requires j <= k <= |r.steps|
    decreases k
  {
    if k == j then 0 else OwnSteps(r, j, k - 1, u) + (if Actor(r.steps[k - 1]) == u then 1 else 0)
  }

  /** Whatever the others do, even if waiters park again, a wake takes at most `Fuel` steps of its own. */
  lemma {:induction false} WakeBounded(r: Run, j: nat, k: nat, u: nat)
    requires IsRun(r) && j <= k < |r.ss| && !r.ss[k].crashed
    requires forall x :: j <= x < k ==> Waking(PCOf(r.ss[x], u)) && !r.ss[x].crashed
    ensures OwnSteps(r, j, k, u) + Fuel(PCOf(r.ss[k], u)) <= Fuel(PCOf(r.ss[j], u))
    decreases k
  {
    if k > j {
      WakeBounded(r, j, k - 1, u);
      FuelSpent(r, k - 1, u);
    }
  }

  lemma FuelSpent(r: Run, k: nat, u: nat)
    requires IsRun(r) && k < |r.steps| && Waking(PCOf(r.ss[k], u)) && !r.ss[k + 1].crashed
    ensures Fuel(PCOf(r.ss[k + 1], u)) + (if Actor(r.steps[k]) == u then 1 else 0) <= Fuel(PCOf(r.ss[k], u))
  {
    RunInv(r, k);
    assert Follows(r, k);
    WakeTerminates(r.ss[k], r.steps[k], u);
  }

  /** The next thing a WAKE does is a send on a closed channel, which panics. */
  predicate AtClosedSend(s: State, pc: PC) { pc.Send? && pc.i != ToI32(pc.n) && pc.ch in s.closed }

  predicate IsPanic(step: Step) { step.NilMapPanic? || step.SendPanic? || step.PumpPanic? || step.ClosePanic? }

  lemma CrashIsPanic(s: State, step: Step)
    requires Enabled(s, step)
    ensures Apply(s, step).crashed <==> IsPanic(step)
  {
  }

  /** A wake is never blocked: some step of its own is enabled, and it is a panic only at a closed channel. */
  lemma WakeNeverBlocks(s: State, u: nat) returns (step: Step)
    requires Inv(s) && !s.crashed && (Waking(PCOf(s, u)) || PCOf(s, u).Lock?)
    ensures Enabled(s, step) && Actor(step) == u
    ensures Apply(s, step).crashed <==> AtClosedSend(s, PCOf(s, u))
  {
    assert ThreadOk(s.tab, s.closed, s.ts[u]);
    assert PCOf(s, u).Pump? ==> s.closed == {};
    step := OwnWakeStep(s, u);
    CrashIsPanic(s, step);
  }

  lemma OwnWakeStep(s: State, u: nat) returns (step: Step)
    requires u < |s.ts| && WakerOk(s.tab, s.ts[u].pc) && !s.crashed && (Waking(PCOf(s, u)) || PCOf(s, u).Lock?)
    requires PCOf(s, u).Pump? ==> s.closed == {}
    ensures Enabled(s, step) && Actor(step) == u
    ensures IsPanic(step) <==> AtClosedSend(s, PCOf(s, u))
  {
    var pc := PCOf(s, u);
    match pc
    case Look(_, _) => step := Lookup(u);
    case Hold(_, _, _) => step := ReadWord(u);
    case Lock(_, _) => step := ReadLock(u);
    case Send(_, n, c, _, i) =>
      if i != ToI32(n) && c in s.closed {
        step := SendPanic(u);
      } else if i != ToI32(n) && exists r: nat :: r < |s.ts| && WordReceiver(s.ts[r].pc, c) {
        var r: nat :| r < |s.ts| && WordReceiver(s.ts[r].pc, c);
        step := SendTo(u, r);
      } else {
        step := SendNone(u);
      }
    case Scan(_, _, _, todo) =>
      if todo == {} {
        step := Unlock(u);
      } else {
        var b :| b in todo;
        step := Bucket(u, b);
      }
    case Pump(_, n, i, _, b) =>
      var c := s.tab.bits[b].ch;
      if i != ToI32(n) && exists r: nat :: r < |s.ts| && BitReceiver(s.ts[r].pc, c) {
        var r: nat :| r < |s.ts| && BitReceiver(s.ts[r].pc, c);
        step := PumpTo(u, r);
      } else {
        step := PumpNone(u);
      }
  }

  // The destructor

  /** No send of WAKE_BITSET ever meets a closed channel, and the destructor never closes a channel twice. */
  lemma NoBitOrClosePanic(r: Run, k: nat, t: nat)
    requires IsRun(r) && k < |r.ss|
    ensures !Enabled(r.ss[k], PumpPanic(t)) && !Enabled(r.ss[k], ClosePanic)
  {
    RunInv(r, k);
  }

  /** A panic needs a Close before it. */
  lemma {:induction false} NoPanicBeforeClose(r: Run, k: nat)
    requires IsRun(r) && k < |r.ss| && r.ss[k].crashed
    ensures r.ss[k].tab.nilled
  {
    if k > 0 {
      RunInv(r, k - 1);
      assert Follows(r, k - 1);
      PanicNilled(r.ss[k - 1], r.steps[k - 1]);
    }
  }

  lemma PanicNilled(s: State, step: Step)
    requires Inv(s) && Enabled(s, step) && Apply(s, step).crashed
    ensures Apply(s, step).tab.nilled
  {
    CrashIsPanic(s, step);
    PanicAfterClose(s, step);
  }

  lemma PanicAfterClose(s: State, step: Step)
    requires Enabled(s, step) && IsPanic(step) && (!s.tab.nilled ==> s.closed == {})
    ensures Apply(s, step).tab.nilled
  {
  }

  /**
   The threads that Close came too early for: a wait that is still to register, and a WAKE that
   holds a channel which is closed by now and has a send to make on it.
   */
  predicate Exposed(closed: set<Chan>, pc: PC) {
    || pc.Check? || pc.Enter?
    || (pc.Hold? && pc.n != 0 && pc.ch in closed)
    || (pc.Send? && pc.i != ToI32(pc.n) && pc.ch in closed)
  }

  ghost predicate NobodyExposed(s: State) {
    forall i :: 0 <= i < |s.ts| ==> !Exposed(s.closed, s.ts[i].pc)
  }

  /** A continuation of `s` in which no further wait begins. */
  ghost predicate Continues(r: Run, s: State) {
    && Linked(r) && r.ss[0] == s
    && forall x :: x in r.steps && x.Begin? ==> !x.call.WaitCall?
  }

  lemma StaysUnexposed(s: State, step: Step, i: nat)
    requires s.tab.awaits == map[] && Enabled(s, step) && !Exposed(s.closed, PCOf(s, i))
    requires step.Begin? ==> !step.call.WaitCall?
    ensures !Exposed(s.closed, PCOf(Apply(s, step), i))
  {
    if Receives(step, i) {
      TwoMove(s, step);
    } else if Actor(step) != i {
      OthersStay(s, step, i);
    } else if step.SendTo? || step.PumpTo? {
      TwoMove(s, step);
    } else {
      OwnUnexposed(s, step, i);
    }
  }

  lemma OwnUnexposed(s: State, step: Step, i: nat)
    requires s.tab.awaits == map[] && Enabled(s, step) && !Exposed(s.closed, PCOf(s, i)) && Actor(step) == i
    requires step.Begin? ==> !step.call.WaitCall?
    requires !step.SendTo? && !step.PumpTo?
    ensures !Exposed(s.closed, PCOf(Apply(s, step), i))
  {
    if step.ReadWord? && PCOf(s, i).n == 0 {
      IncCounts(0, 0);
    }
  }

  lemma UnexposedStep(s: State, step: Step)
    requires Inv(s) && Enabled(s, step) && s.tab.nilled && NobodyExposed(s)
    requires step.Begin? ==> !step.call.WaitCall?
    ensures NobodyExposed(Apply(s, step))
  {
    var s' := Apply(s, step);
    NilledStays(s, step);
    forall i: nat | i < |s'.ts| ensures !Exposed(s'.closed, s'.ts[i].pc) {
      assert !Exposed(s.closed, s.ts[i].pc);
      StaysUnexposed(s, step, i);
    }
  }

  lemma NilledStays(s: State, step: Step)
    requires Inv(s) && Enabled(s, step) && s.tab.nilled
    ensures var s' := Apply(s, step);
            s'.tab.nilled && s'.closed == s.closed && |s'.ts| == |s.ts|
  {
    if step.Deregister? {
      LateDeregister(s, step.t);
    } else if step.Close? {
      assert AllChans(s.tab) == {};
    } else {
      OthersNil(s, step);
    }
  }

  lemma OthersNil(s: State, step: Step)
    requires Enabled(s, step) && s.tab.nilled && !step.Deregister? && !step.Close?
    ensures var s' := Apply(s, step);
            s'.tab.nilled && s'.closed == s.closed && |s'.ts| == |s.ts|
  {
  }

  lemma UnexposedSafe(s: State, step: Step)
    requires Inv(s) && Enabled(s, step) && s.tab.nilled && NobodyExposed(s)
    ensures !Apply(s, step).crashed
  {
    CrashIsPanic(s, step);
    if IsPanic(step) {
      PanicExposed(s, step);
    }
  }

  /** After Close only an exposed thread can panic. */
  lemma PanicExposed(s: State, step: Step)
    requires s.tab.awaits == map[] && s.tab.bits == map[] && Enabled(s, step) && IsPanic(step)
    ensures !NobodyExposed(s)
  {
    assert AllChans(s.tab) == {};
    assert Exposed(s.closed, s.ts[step.t].pc);
  }

  lemma {:induction false} UnexposedRun(r: Run, s: State, k: nat)
    requires Continues(r, s) && k < |r.ss| && Inv(s) && s.tab.nilled && !s.crashed && NobodyExposed(s)
    ensures var z := r.ss[k]; Inv(z) && z.tab.nilled && !z.crashed && NobodyExposed(z)
  {
    if k > 0 {
      UnexposedRun(r, s, k - 1);
      var z, step := r.ss[k - 1], r.steps[k - 1];
      assert Follows(r, k - 1);
      StepInv(z, step);
      UnexposedStep(z, step);
      UnexposedSafe(z, step);
      NilledStays(z, step);
    }
  }

  /** After Close a deregistration finds no entry and changes no table. */
  lemma LateDeregister(s: State, t: nat)
    requires Inv(s) && s.tab.nilled && Enabled(s, Deregister(t))
    ensures Apply(s, Deregister(t)).tab == s.tab
  {
  }

  /** Adds a step at the end of a linked run. */
  lemma Extend(r: Run, step: Step) returns (r': Run)
    requires Linked(r) && Enabled(r.ss[|r.steps|], step)
    ensures Linked(r') && r'.ss == r.ss + [Apply(r.ss[|r.steps|], step)] && r'.steps == r.steps + [step]
    ensures r'.ss[|r'.steps|] == Apply(r.ss[|r.steps|], step)
  {
    r' := Run(r.ss + [Apply(r.ss[|r.steps|], step)], r.steps + [step]);
    forall i: nat ensures Follows(r', i) {
      assert Follows(r, i);
    }
  }

  /** Puts a step in front of a linked run. */
  lemma Prepend(s: State, step: Step, r: Run) returns (r': Run)
    requires Enabled(s, step) && Linked(r) && r.ss[0] == Apply(s, step)
    ensures Linked(r') && r'.ss == [s] + r.ss && r'.steps == [step] + r.steps && r'.ss[|r'.steps|] == r.ss[|r.steps|]
  {
    r' := Run([s] + r.ss, [step] + r.steps);
    forall i: nat ensures Follows(r', i) {
      if i > 0 {
        assert Follows(r, i - 1);
      }
    }
  }

  /** After Close there is nothing left to scan, so a WAKE_BITSET holding the lock gives it back at once. */
  lemma LateUnlock(s: State, i: nat)
    requires Inv(s) && s.tab.nilled && !s.crashed && i < |s.ts| && Reading(s.ts[i].pc)
    ensures Enabled(s, Unlock(i))
    ensures var s1 := Apply(s, Unlock(i));
            && Inv(s1) && s1 == s.(ts := s1.ts) && |s1.ts| == |s.ts|
            && (forall j: nat :: j != i ==> PCOf(s1, j) == PCOf(s, j))
            && Total(Readers, s1.ts) < Total(Readers, s.ts)
  {
    assert ThreadOk(s.tab, s.closed, s.ts[i]);
    StepInv(s, Unlock(i));
    TotalUpdate(Readers, s.ts, i, Apply(s, Unlock(i)).ts[i]);
  }

  /** After Close the lock can always be freed by Unlock steps alone, which leave thread `t` where it is. */
  lemma {:induction false} Drain(s: State, t: nat) returns (r: Run)
    requires Inv(s) && s.tab.nilled && !s.crashed && !Reading(PCOf(s, t))
    ensures Linked(r) && r.ss[0] == s && (forall x :: x in r.steps ==> x.Unlock?)
    ensures var z := r.ss[|r.steps|]; Inv(z) && NoReader(z) && PCOf(z, t) == PCOf(s, t) && z == s.(ts := z.ts)
    decreases Total(Readers, s.ts)
  {
    if NoReader(s) {
      r := Run([s], []);
    } else {
      var i: nat :| i < |s.ts| && Reading(s.ts[i].pc);
      LateUnlock(s, i);
      r := Drain(Apply(s, Unlock(i)), t);
      r := Prepend(s, Unlock(i), r);
    }
  }

  /** A wait about to register panics. */
  lemma EnterPanics(s: State, t: nat) returns (r: Run)
    requires Inv(s) && s.tab.nilled && !s.crashed && PCOf(s, t).Enter?
    ensures Continues(r, s) && r.ss[|r.steps|].crashed
  {
    r := Drain(s, t);
    r := Extend(r, NilMapPanic(t));
  }

  /** A wait that reads a matching word gets to the point of registering, and panics. */
  lemma CheckPanics(s: State, t: nat) returns (r: Run)
    requires Inv(s) && s.tab.nilled && !s.crashed && PCOf(s, t).Check?
    ensures Continues(r, s) && r.ss[|r.steps|].crashed
  {
    var w := PCOf(s, t).w;
    var s1 := Apply(s, Store(s.mem[w.addr := w.val]));
    StepInv(s, Store(s.mem[w.addr := w.val]));
    var s2 := Apply(s1, CheckWord(t));
    StepInv(s1, CheckWord(t));
    r := EnterPanics(s2, t);
    r := Prepend(s1, CheckWord(t), r);
    r := Prepend(s, Store(s.mem[w.addr := w.val]), r);
  }

  /** A WAKE that holds a closed channel reads the word, sends, and panics. */
  lemma HoldPanics(s: State, t: nat) returns (r: Run)
    requires !s.crashed && PCOf(s, t).Hold? && PCOf(s, t).n != 0 && PCOf(s, t).ch in s.closed
    ensures Continues(r, s) && r.ss[|r.steps|].crashed
  {
    var pc := PCOf(s, t);
    IncCounts(0, pc.n);
    r := Extend(Run([s], []), Store(s.mem[pc.addr := 0]));
    r := Extend(r, ReadWord(t));
    r := Extend(r, SendPanic(t));
  }

  lemma ExposedPanics(s: State, t: nat) returns (r: Run)
    requires Inv(s) && s.tab.nilled && !s.crashed && t < |s.ts| && Exposed(s.closed, s.ts[t].pc)
    ensures Continues(r, s) && r.ss[|r.steps|].crashed
  {
    var pc := PCOf(s, t);
    if pc.Enter? {
      r := EnterPanics(s, t);
    } else if pc.Check? {
      r := CheckPanics(s, t);
    } else if pc.Hold? {
      r := HoldPanics(s, t);
    } else {
      r := Extend(Run([s], []), SendPanic(t));
    }
  }

  /**
   Exactly when Close is safe: from a state after Close, with no further wait begun, some
   continuation panics if and only if some thread is exposed in that state.
   */
  lemma PanicIffExposed(s: State)
    requires Inv(s) && s.tab.nilled && !s.crashed
    ensures (exists r: Run :: Continues(r, s) && r.ss[|r.steps|].crashed) <==> !NobodyExposed(s)
  {
    if NobodyExposed(s) {
      forall r: Run | Continues(r, s) ensures !r.ss[|r.steps|].crashed {
        UnexposedRun(r, s, |r.steps|);
      }
    } else {
      var t: nat :| t < |s.ts| && Exposed(s.closed, s.ts[t].pc);
      var r := ExposedPanics(s, t);
    }
  }

  /** A run that panics: the thread has found `val` in its word, and Close comes before it registers. */
  lemma LateRegistration() returns (r: Run)
    ensures IsRun(r) && r.ss[|r.steps|].crashed && Close in r.steps && r.steps[|r.steps| - 1] == NilMapPanic(0)
  {
    r := WordMatched();
    assert AllChans(EMPTY) == {};
    r := Extend(r, Close);
    r := Extend(r, NilMapPanic(0));
  }

  lemma WordMatched() returns (r: Run)
    ensures IsRun(r)
    ensures r.ss[|r.steps|] == State(EMPTY, {}, map[0 := 0], [IDLE.(pc := Enter(Wait(0, 0, Plain, false)))], false)
  {
    r := Run([State(EMPTY, {}, map[0 := 0], [IDLE], false)], []);
    r := Extend(r, Begin(0, WaitCall(Wait(0, 0, Plain, false))));
    r := Extend(r, CheckWord(0));
  }

  lemma WaiterListed() returns (r: Run)
    ensures IsRun(r)
    ensures r.ss[|r.steps|] ==
              State(Tables(map[0 := Entry(0, 1)], map[], [AtAddr(0)], false), {}, map[0 := 0],
                    [IDLE.(pc := Select(Ticket(Wait(0, 0, Plain, false), 0, 0))), IDLE], false)
  {
    r := Run([State(EMPTY, {}, map[0 := 0], [IDLE, IDLE], false)], []);
    r := Extend(r, Begin(0, WaitCall(Wait(0, 0, Plain, false))));
    r := Extend(r, CheckWord(0));
    r := Extend(r, Register(0));
  }

  /** The other way: the WAKE has the channel in hand and the word read when Close closes the channel. */
  lemma LateSend() returns (r: Run)
    ensures IsRun(r) && r.ss[|r.steps|].crashed && Close in r.steps && r.steps[|r.steps| - 1] == SendPanic(1)
  {
    r := WaiterListed();
    r := Extend(r, Begin(1, WakeCall(0, 1)));
    r := Extend(r, Lookup(1));
    r := Extend(r, ReadWord(1));
    assert r.ss[|r.steps|] ==
           State(Tables(map[0 := Entry(0, 1)], map[], [AtAddr(0)], false), {}, map[0 := 0],
                 [IDLE.(pc := Select(Ticket(Wait(0, 0, Plain, false), 0, 0))), IDLE.(pc := Send(0, 1, 0, 0, 0))], false);
    r := CloseUnder(r);
  }

  /** Close while thread 1 has a send to make on the only channel there is. */
  lemma CloseUnder(r: Run) returns (r': Run)
    requires IsRun(r)
    requires var z := r.ss[|r.steps|];
             && z.tab.awaits == map[0 := Entry(0, 1)] && z.tab.bits == map[] && z.closed == {} && !z.crashed && NoReader(z)
             && PCOf(z, 1).Send? && PCOf(z, 1).ch == 0 && PCOf(z, 1).i != ToI32(PCOf(z, 1).n)
    ensures IsRun(r') && r'.ss[|r'.steps|].crashed && Close in r'.steps && r'.steps[|r'.steps| - 1] == SendPanic(1)
  {
    var z := r.ss[|r.steps|];
    assert z.tab.awaits[0].ch in AllChans(z.tab);
    r' := Extend(r, Close);
    assert 0 in r'.ss[|r'.steps|].closed;
    r' := Extend(r', SendPanic(1));
  }

  /** After Close a registered waiter can always receive from its word channel, and a bitset waiter from both. */
  lemma ClosedWakes(s: State, t: nat)
    requires Inv(s) && s.tab.nilled && !s.crashed && (PCOf(s, t).Select? || PCOf(s, t).Parked?)
    ensures Enabled(s, ClosedWord(t)) && (PCOf(s, t).tk.w.kind.Bits? ==> Enabled(s, ClosedBit(t)))
  {
  }

  /** One step of `t` after Close with the lock free. */
  lemma Own(s: State, step: Step, t: nat)
    requires Inv(s) && NoReader(s) && s.tab.nilled && Enabled(s, step)
    requires step == Resume(t) || step == Reread(t) || step == ClosedWord(t) || step == Deregister(t)
    ensures var z := Apply(s, step); Inv(z) && NoReader(z) && z.tab.nilled && !z.crashed
  {
    StepInv(s, step);
    NilledStays(s, step);
  }

  function StepsToLeave(pc: PC): nat {
    if pc.Got? || pc.GotBit? then 2 else if pc.Leave? then 0 else 1
  }

  /** From the select, or once woken, the way out takes at most three steps. */
  lemma WayOut(s: State, t: nat) returns (steps: seq<Step>, z: State)
    requires Inv(s) && NoReader(s) && s.tab.nilled && !s.crashed && Registered(PCOf(s, t))
    ensures |steps| <= StepsToLeave(PCOf(s, t)) + 1 && Leads(s, steps, z) && PCOf(z, t).Done?
    ensures PCOf(z, t).call == WaitCall(PCOf(s, t).tk.w)
    ensures PCOf(s, t).Select? || PCOf(s, t).Parked? ==> PCOf(z, t).res == Fail(EPERM)
    ensures PCOf(s, t).Leave? ==> PCOf(z, t).res == PCOf(s, t).res
    ensures forall x :: x in steps ==> Actor(x) == t
    decreases StepsToLeave(PCOf(s, t))
  {
    var step :=
      if PCOf(s, t).Got? then Resume(t)
      else if PCOf(s, t).GotBit? then Reread(t)
      else if PCOf(s, t).Leave? then Deregister(t)
      else ClosedWord(t);
    if !PCOf(s, t).Got? && !PCOf(s, t).GotBit? && !PCOf(s, t).Leave? {
      ClosedWakes(s, t);
    }
    Own(s, step, t);
    var s1 := Apply(s, step);
    if step.Deregister? {
      steps, z := [step], s1;
      assert Leads(s1, [], s1);
    } else {
      steps, z := WayOut(s1, t);
      steps := [step] + steps;
    }
  }

  /** The steps can be taken one after the other from `s` and end in `z`. */
  ghost predicate Leads(s: State, steps: seq<Step>, z: State)
    decreases |steps|
  {
    if steps == [] then s == z
    else Enabled(s, steps[0]) && Leads(Apply(s, steps[0]), steps[1..], z)
  }

  /**
   Close strands nobody: from every reachable state after Close, once the running WAKE_BITSET
   calls have given back the lock (which they can always do), every registered waiter can return from
   its own call by at most three steps of its own, and one that is in its select with EPERM.
   */
  lemma CloseStrandsNobody(r: Run, k: nat, t: nat) returns (drained: Run, steps: seq<Step>, z: State)
    requires IsRun(r) && k < |r.ss| && Registered(PCOf(r.ss[k], t))
    requires r.ss[k].tab.nilled && !r.ss[k].crashed
    ensures Linked(drained) && drained.ss[0] == r.ss[k] && forall x :: x in drained.steps ==> x.Unlock?
    ensures Leads(drained.ss[|drained.steps|], steps, z) && PCOf(z, t).Done?
    ensures PCOf(z, t).call == WaitCall(PCOf(r.ss[k], t).tk.w)
    ensures PCOf(r.ss[k], t).Select? || PCOf(r.ss[k], t).Parked? ==> PCOf(z, t).res == Fail(EPERM)
    ensures |steps| <= 3 && forall x :: x in steps ==> Actor(x) == t
  {
    RunInv(r, k);
    drained := Drain(r.ss[k], t);
    steps, z := WayOut(drained.ss[|drained.steps|], t);
  }
}
