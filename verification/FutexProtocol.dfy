/**
 The futex system call of `kernel/futex.go` as an interleaved step system.

 Any number of threads call WAIT, WAIT_BITSET, WAKE and WAKE_BITSET. A step is one
 action that the locks and channels of the program make indivisible. `Enabled` says
 when a step can be taken and `Apply` what it does, so a run is a sequence of steps.
 */
module FutexProtocol {
  import opened Machine
  import opened FutexTable

  datatype Kind = Plain | Bits(mask: Mask)

  /** The arguments of a wait; `timed` says that a timeout was given. */
  datatype Wait = Wait(addr: Addr, val: u32, kind: Kind, timed: bool)

  datatype Call = WaitCall(w: Wait) | WakeCall(addr: Addr, n: u32) | WakeBitsCall(mask: Mask, n: u32)

  datatype Errno = EFAULT | EAGAIN | ETIMEDOUT | EPERM

  datatype Result = Ok(v: i32) | Fail(errno: Errno)

  /** A registered waiter: its arguments and the channels it was given (`ch2` for a bitset wait only). */
  datatype Ticket = Ticket(w: Wait, ch1: Chan, ch2: Chan)

  datatype PC =
    | Idle
    | Check(w: Wait)                                           // about to read the word
    | Enter(w: Wait)                                           // the word matched; about to register
    | Select(tk: Ticket)                                       // registered, about to enter the select
    | Parked(tk: Ticket)                                       // blocked in the select
    | Got(tk: Ticket, v: u32)                                  // a value arrived on ch1
    | GotBit(tk: Ticket)                                       // a signal arrived on ch2
    | Leave(tk: Ticket, res: Result)                           // about to deregister
    | Look(addr: Addr, n: u32)                                 // WAKE, about to look up the channel
    | Hold(addr: Addr, n: u32, ch: Chan)                       // WAKE, about to read the word
    | Send(addr: Addr, n: u32, ch: Chan, v: u32, i: i32)       // WAKE, in the send loop
    | Lock(mask: Mask, n: u32)                                 // WAKE_BITSET, about to take the read lock
    | Scan(mask: Mask, n: u32, i: i32, todo: set<Mask>)        // WAKE_BITSET, between two buckets
    | Pump(mask: Mask, n: u32, i: i32, todo: set<Mask>, b: Mask) // WAKE_BITSET, in the send loop of bucket b
    | Done(call: Call, res: Result)

  /**
   What a thread has done so far: deliveries it made, the sum of the counts its finished
   wakes returned, deliveries it received, waits that returned 0, and times it parked.
   */
  datatype Account = Account(sent: nat, reported: nat, received: nat, zeros: nat, parks: nat)

  datatype Thread = Thread(pc: PC, acct: Account)

  /** `mem` holds the readable futex words; reading any other address fails. */
  datatype State = State(tab: Tables, closed: set<Chan>, mem: map<Addr, u32>, ts: seq<Thread>, crashed: bool)

  datatype Step =
    | Begin(t: nat, call: Call)
    | CheckWord(t: nat)
    | BadTimeout(t: nat)
    | Register(t: nat)
    | Park(t: nat)
    | Timeout(t: nat)
    | ClosedWord(t: nat)
    | ClosedBit(t: nat)
    | Resume(t: nat)
    | Reread(t: nat)
    | Deregister(t: nat)
    | Lookup(t: nat)
    | ReadWord(t: nat)
    | SendTo(t: nat, r: nat)
    | SendNone(t: nat)
    | ReadLock(t: nat)
    | Bucket(t: nat, b: Mask)
    | PumpTo(t: nat, r: nat)
    | PumpNone(t: nat)
    | Unlock(t: nat)
    | Store(m: map<Addr, u32>)
    | Close
    | NilMapPanic(t: nat)
    | SendPanic(t: nat)
    | PumpPanic(t: nat)
    | ClosePanic

  predicate Registered(pc: PC) {
    pc.Select? || pc.Parked? || pc.Got? || pc.GotBit? || pc.Leave?
  }

  /** Holding the read lock, from RLock to RUnlock. */
  predicate Reading(pc: PC) { pc.Scan? || pc.Pump? }

  ghost predicate NoReader(s: State) {
    forall i :: 0 <= i < |s.ts| ==> !Reading(s.ts[i].pc)
  }

  /** Blocked in a select that receives word values from channel `c`. */
  predicate WordReceiver(pc: PC, c: Chan) { pc.Parked? && pc.tk.ch1 == c }

  /** Blocked in a select that receives bit signals from channel `c`. */
  predicate BitReceiver(pc: PC, c: Chan) { pc.Parked? && pc.tk.w.kind.Bits? && pc.tk.ch2 == c }

  function PCOf(s: State, t: nat): PC {
    if t < |s.ts| then s.ts[t].pc else Idle
  }

  function Start(c: Call): PC {
    match c
    case WaitCall(w) => Check(w)
    case WakeCall(a, n) => Look(a, n)
    case WakeBitsCall(m, n) => Lock(m, n)
  }

  ghost predicate Enabled(s: State, step: Step) {
    && !s.crashed
    && match step
       case Begin(t, call) => t < |s.ts| && (PCOf(s, t).Idle? || PCOf(s, t).Done?)
       case CheckWord(t) => PCOf(s, t).Check?
       case BadTimeout(t) => PCOf(s, t).Enter? && PCOf(s, t).w.timed
       case Register(t) => PCOf(s, t).Enter? && NoReader(s) && !s.tab.nilled
       case Park(t) => PCOf(s, t).Select?
       case Timeout(t) =>
         var pc := PCOf(s, t);
         (pc.Select? || pc.Parked?) && pc.tk.w.timed
       case ClosedWord(t) =>
         var pc := PCOf(s, t);
         (pc.Select? || pc.Parked?) && pc.tk.ch1 in s.closed
       case ClosedBit(t) =>
         var pc := PCOf(s, t);
         (pc.Select? || pc.Parked?) && pc.tk.w.kind.Bits? && pc.tk.ch2 in s.closed
       case Resume(t) => PCOf(s, t).Got?
       case Reread(t) => PCOf(s, t).GotBit?
       case Deregister(t) => PCOf(s, t).Leave? && NoReader(s)
       case Lookup(t) => PCOf(s, t).Look?
       case ReadWord(t) => PCOf(s, t).Hold?
       case SendTo(t, r) =>
         var pc := PCOf(s, t);
         && pc.Send? && pc.i != ToI32(pc.n) && pc.ch !in s.closed
         && r < |s.ts| && WordReceiver(PCOf(s, r), pc.ch)
       case SendNone(t) =>
         var pc := PCOf(s, t);
         && pc.Send?
         && (pc.i != ToI32(pc.n) ==>
               && pc.ch !in s.closed
               && forall r :: 0 <= r < |s.ts| ==> !WordReceiver(s.ts[r].pc, pc.ch))
       case ReadLock(t) => PCOf(s, t).Lock?
       case Bucket(t, b) => PCOf(s, t).Scan? && b in PCOf(s, t).todo
       case PumpTo(t, r) =>
         var pc := PCOf(s, t);
         && pc.Pump? && pc.i != ToI32(pc.n) && pc.b in s.tab.bits && s.tab.bits[pc.b].ch !in s.closed
         && r < |s.ts| && BitReceiver(PCOf(s, r), s.tab.bits[pc.b].ch)
       case PumpNone(t) =>
         var pc := PCOf(s, t);
         && pc.Pump?
         && (pc.i != ToI32(pc.n) ==>
               && pc.b in s.tab.bits && s.tab.bits[pc.b].ch !in s.closed
               && forall r :: 0 <= r < |s.ts| ==> !BitReceiver(s.ts[r].pc, s.tab.bits[pc.b].ch))
       case Unlock(t) => PCOf(s, t).Scan? && PCOf(s, t).todo == {}
       case Store(m) => true
       case Close => NoReader(s) && AllChans(s.tab) !! s.closed
       case NilMapPanic(t) => PCOf(s, t).Enter? && NoReader(s) && s.tab.nilled
       case SendPanic(t) => var pc := PCOf(s, t); pc.Send? && pc.i != ToI32(pc.n) && pc.ch in s.closed
       case PumpPanic(t) =>
         var pc := PCOf(s, t);
         pc.Pump? && pc.i != ToI32(pc.n) && pc.b in s.tab.bits && s.tab.bits[pc.b].ch in s.closed
       case ClosePanic => NoReader(s) && !(AllChans(s.tab) !! s.closed)
  }

  /** Moves thread `t` to `pc`. */
  function Go(s: State, t: nat, pc: PC): State
    requires t < |s.ts|
  {
    s.(ts := s.ts[t := s.ts[t].(pc := pc)])
  }

  /** Moves thread `t` to `pc` and sets its account. */
  function GoWith(s: State, t: nat, pc: PC, acct: Account): State
    requires t < |s.ts|
  {
    s.(ts := s.ts[t := Thread(pc, acct)])
  }

  /** A wake call of thread `t` ends and reports `i`. */
  function Report(s: State, t: nat, call: Call, i: i32): State
    requires t < |s.ts|
  {
    var acct := s.ts[t].acct;
    GoWith(s, t, Done(call, Ok(i)), acct.(reported := acct.reported + ToU32(i)))
  }

  /** The waiter `t` leaves its loop with result 0. */
  function Succeed(s: State, t: nat, tk: Ticket): State
    requires t < |s.ts|
  {
    var acct := s.ts[t].acct;
    GoWith(s, t, Leave(tk, Ok(0)), acct.(zeros := acct.zeros + 1))
  }

  /** One rendezvous: the sender `t` moves on to `pc` and the receiver `r` to `got`. */
  function Deliver(s: State, t: nat, pc: PC, r: nat, got: PC): State
    requires t < |s.ts| && r < |s.ts|
  {
    var a := s.ts[t].acct;
    var s1 := GoWith(s, t, pc, a.(sent := a.sent + 1));
    var b := s1.ts[r].acct;
    GoWith(s1, r, got, b.(received := b.received + 1))
  }

  /** The tables after registering `w`, and the ticket handed out. */
  function Admit(tab: Tables, w: Wait): (Tables, Ticket) {
    var (t1, c1) := AddAddr(tab, w.addr);
    match w.kind
    case Plain => (t1, Ticket(w, c1, c1))
    case Bits(b) => var (t2, c2) := AddMask(t1, b); (t2, Ticket(w, c1, c2))
  }

  /** The tables after deregistering `w`. */
  function Dismiss(tab: Tables, w: Wait): Tables {
    var t1 := DelAddr(tab, w.addr);
    match w.kind
    case Plain => t1
    case Bits(b) => DelMask(t1, b)
  }

  function Inc(i: i32): i32 { ToI32(i + 1) }

  function Apply(s: State, step: Step): State
    requires Enabled(s, step)
  {
    match step
    case Begin(t, call) => Go(s, t, Start(call))
    case CheckWord(t) =>
      var w := PCOf(s, t).w;
      if w.addr !in s.mem then Go(s, t, Done(WaitCall(w), Fail(EFAULT)))
      else if s.mem[w.addr] != w.val then Go(s, t, Done(WaitCall(w), Fail(EAGAIN)))
      else Go(s, t, Enter(w))
    case BadTimeout(t) => Go(s, t, Done(WaitCall(PCOf(s, t).w), Fail(EFAULT)))
    case Register(t) =>
      var (tab, tk) := Admit(s.tab, PCOf(s, t).w);
      Go(s.(tab := tab), t, Select(tk))
    case Park(t) =>
      var acct := s.ts[t].acct;
      GoWith(s, t, Parked(PCOf(s, t).tk), acct.(parks := acct.parks + 1))
    case Timeout(t) => Go(s, t, Leave(PCOf(s, t).tk, Fail(ETIMEDOUT)))
    case ClosedWord(t) => Go(s, t, Leave(PCOf(s, t).tk, Fail(EPERM)))
    case ClosedBit(t) => Go(s, t, GotBit(PCOf(s, t).tk))
    case Resume(t) =>
      var pc := PCOf(s, t);
      if pc.v != pc.tk.w.val then Succeed(s, t, pc.tk) else Go(s, t, Select(pc.tk))
    case Reread(t) =>
      var tk := PCOf(s, t).tk;
      if tk.w.addr !in s.mem then Go(s, t, Leave(tk, Fail(EFAULT)))
      else if s.mem[tk.w.addr] != tk.w.val then Succeed(s, t, tk)
      else Go(s, t, Select(tk))
    case Deregister(t) =>
      var pc := PCOf(s, t);
      Go(s.(tab := Dismiss(s.tab, pc.tk.w)), t, Done(WaitCall(pc.tk.w), pc.res))
    case Lookup(t) =>
      var pc := PCOf(s, t);
      if pc.addr !in s.tab.awaits then Go(s, t, Done(WakeCall(pc.addr, pc.n), Ok(0)))
      else Go(s, t, Hold(pc.addr, pc.n, s.tab.awaits[pc.addr].ch))
    case ReadWord(t) =>
      var pc := PCOf(s, t);
      if pc.addr !in s.mem then Go(s, t, Done(WakeCall(pc.addr, pc.n), Fail(EFAULT)))
      else Go(s, t, Send(pc.addr, pc.n, pc.ch, s.mem[pc.addr], 0))
    case SendTo(t, r) =>
      var pc := PCOf(s, t);
      Deliver(s, t, Send(pc.addr, pc.n, pc.ch, pc.v, Inc(pc.i)), r, Got(PCOf(s, r).tk, pc.v))
    case SendNone(t) => var pc := PCOf(s, t); Report(s, t, WakeCall(pc.addr, pc.n), pc.i)
    case ReadLock(t) => var pc := PCOf(s, t); Go(s, t, Scan(pc.mask, pc.n, 0, s.tab.bits.Keys))
    case Bucket(t, b) =>
      var pc := PCOf(s, t);
      if Meets(b, pc.mask) then Go(s, t, Pump(pc.mask, pc.n, pc.i, pc.todo - {b}, b))
      else Go(s, t, Scan(pc.mask, pc.n, pc.i, pc.todo - {b}))
    case PumpTo(t, r) =>
      var pc := PCOf(s, t);
      Deliver(s, t, Pump(pc.mask, pc.n, Inc(pc.i), pc.todo, pc.b), r, GotBit(PCOf(s, r).tk))
    case PumpNone(t) =>
      var pc := PCOf(s, t);
      if pc.i == ToI32(pc.n) then Report(s, t, WakeBitsCall(pc.mask, pc.n), pc.i)
      else Go(s, t, Scan(pc.mask, pc.n, pc.i, pc.todo))
    case Unlock(t) => var pc := PCOf(s, t); Report(s, t, WakeBitsCall(pc.mask, pc.n), pc.i)
    case Store(m) => s.(mem := m)
    case Close =>
      s.(closed := s.closed + AllChans(s.tab), tab := s.tab.(awaits := map[], bits := map[], nilled := true))
    case NilMapPanic(_) => s.(crashed := true)
    case SendPanic(_) => s.(crashed := true)
    case PumpPanic(_) => s.(crashed := true)
    case ClosePanic => s.(crashed := true)
  }

  const IDLE := Thread(Idle, Account(0, 0, 0, 0, 0))

  ghost predicate Init(s: State) {
    && s.tab == EMPTY && s.closed == {} && !s.crashed
    && forall i :: 0 <= i < |s.ts| ==> s.ts[i] == IDLE
  }

  // Runs

  /** The states passed through and the steps taken between them. */
  datatype Run = Run(ss: seq<State>, steps: seq<Step>)

  /** State `i + 1` follows from state `i` by the step between them. */
  ghost predicate Follows(r: Run, i: nat)
    requires |r.ss| == |r.steps| + 1
  {
    i < |r.steps| ==> Enabled(r.ss[i], r.steps[i]) && r.ss[i + 1] == Apply(r.ss[i], r.steps[i])
  }

  /** Every state follows from the one before. */
  ghost predicate Linked(r: Run) {
    |r.ss| == |r.steps| + 1 && forall i: nat :: Follows(r, i)
  }

  /** A run of the system from its start. */
  ghost predicate IsRun(r: Run) {
    Linked(r) && Init(r.ss[0])
  }

  // Counting

  /** A quantity summed over all threads. */
  datatype Measure =
    | RegisteredAt(key: Key) | Sent | Received | Reported | InProgress | Zeros | LeavingZero | Readers
    | ParkedIn(g: Group) | Takers(addr: Addr, word: u32)

  /** The waiters a wake is aimed at: those of an address, or the bitset waits whose mask has a bit in common with a mask. */
  datatype Group = ByAddr(addr: Addr) | ByMask(mask: Mask)

  predicate InGroup(w: Wait, g: Group) {
    match g
    case ByAddr(a) => w.addr == a
    case ByMask(m) => w.kind.Bits? && ShareBit(w.kind.mask, m)
  }

  /**
   A wait on `a` that can still take a delivery, by its own steps alone, while the word holds `word`:
   one that is not yet woken, or one that will go back to waiting.
   */
  predicate CanTake(pc: PC, a: Addr, word: u32) {
    match pc
    case Enter(w) => w.addr == a
    case Select(tk) => tk.w.addr == a
    case Parked(tk) => tk.w.addr == a
    case Got(tk, v) => tk.w.addr == a && v == tk.w.val
    case GotBit(tk) => tk.w.addr == a && word == tk.w.val
    case _ => false
  }

  predicate HasKey(w: Wait, k: Key) {
    match k
    case AtAddr(a) => w.addr == a
    case AtMask(b) => w.kind == Bits(b)
  }

  function Weight(m: Measure, th: Thread): nat {
    match m
    case RegisteredAt(k) => if Registered(th.pc) && HasKey(th.pc.tk.w, k) then 1 else 0
    case Sent => th.acct.sent
    case Received => th.acct.received
    case Reported => th.acct.reported
    case InProgress => if th.pc.Send? || th.pc.Scan? || th.pc.Pump? then ToU32(th.pc.i) else 0
    case Zeros => th.acct.zeros
    case LeavingZero => if th.pc.Leave? && th.pc.res == Ok(0) then 1 else 0
    case Readers => if Reading(th.pc) then 1 else 0
    case ParkedIn(g) => if th.pc.Parked? && InGroup(th.pc.tk.w, g) then 1 else 0
    case Takers(a, word) => if CanTake(th.pc, a, word) then 1 else 0
  }

  function Total(m: Measure, ts: seq<Thread>): nat {
    if ts == [] then 0 else Weight(m, ts[0]) + Total(m, ts[1..])
  }

  lemma {:induction false} TotalUpdate(m: Measure, ts: seq<Thread>, i: nat, x: Thread)
    requires i < |ts|
    ensures Total(m, ts[i := x]) + Weight(m, ts[i]) == Total(m, ts) + Weight(m, x)
  {
    if i == 0 {
      assert ts[i := x][1..] == ts[1..];
    } else {
      assert ts[i := x][1..] == ts[1..][i - 1 := x];
      TotalUpdate(m, ts[1..], i - 1, x);
    }
  }

  lemma {:induction false} TotalZero(m: Measure, ts: seq<Thread>)
    requires forall i :: 0 <= i < |ts| ==> Weight(m, ts[i]) == 0
    ensures Total(m, ts) == 0
  {
    if ts != [] {
      TotalZero(m, ts[1..]);
    }
  }

  /** A thread that weighs something is counted. */
  lemma {:induction false} TotalAtLeast(m: Measure, ts: seq<Thread>, i: nat)
    requires i < |ts|
    ensures Total(m, ts) >= Weight(m, ts[i])
  {
    if i > 0 {
      TotalAtLeast(m, ts[1..], i - 1);
    }
  }

  /** A positive total has a thread that contributes to it. */
  lemma {:induction false} TotalWitness(m: Measure, ts: seq<Thread>) returns (i: nat)
    requires Total(m, ts) > 0
    ensures i < |ts| && Weight(m, ts[i]) > 0
  {
    if Weight(m, ts[0]) > 0 {
      i := 0;
    } else {
      var j := TotalWitness(m, ts[1..]);
      i := j + 1;
    }
  }

  lemma {:induction false} TotalMonotone(m: Measure, k: Measure, ts: seq<Thread>)
    requires forall i :: 0 <= i < |ts| ==> Weight(m, ts[i]) <= Weight(k, ts[i])
    ensures Total(m, ts) <= Total(k, ts)
  {
    if ts != [] {
      TotalMonotone(m, k, ts[1..]);
    }
  }

  lemma {:induction false} TotalSame(m: Measure, ts: seq<Thread>, ts': seq<Thread>)
    requires |ts| == |ts'| && forall i :: 0 <= i < |ts| ==> Weight(m, ts[i]) == Weight(m, ts'[i])
    ensures Total(m, ts) == Total(m, ts')
  {
    if ts != [] {
      TotalSame(m, ts[1..], ts'[1..]);
    }
  }

  // Who moves

  function Actor(step: Step): int {
    match step
    case Store(_) => -1
    case Close => -1
    case ClosePanic => -1
    case _ => step.t
  }

  predicate Receives(step: Step, i: nat) { (step.SendTo? || step.PumpTo?) && step.r == i }

  /** A step moves the thread that takes it and, in a rendezvous, the receiver, and nobody else. */
  lemma OthersStay(s: State, step: Step, i: nat)
    requires Enabled(s, step) && Actor(step) != i && !Receives(step, i)
    ensures PCOf(Apply(s, step), i) == PCOf(s, i)
  {
  }

  /** A step other than a rendezvous replaces at most the thread that takes it. */
  lemma OneMoves(s: State, step: Step)
    requires Enabled(s, step) && !step.SendTo? && !step.PumpTo?
    ensures var s' := Apply(s, step);
            if Actor(step) < 0 then s'.ts == s.ts else Actor(step) < |s.ts| && s'.ts == s.ts[Actor(step) := s'.ts[Actor(step)]]
  {
  }

  /** A rendezvous replaces the sender and the receiver. */
  lemma TwoMove(s: State, step: Step)
    requires Enabled(s, step) && (step.SendTo? || step.PumpTo?)
    ensures var s' := Apply(s, step);
            && step.t < |s.ts| && step.r < |s.ts| && step.t != step.r
            && s' == s.(ts := s.ts[step.t := s'.ts[step.t]][step.r := s'.ts[step.r]])
            && s'.ts[step.t].acct == s.ts[step.t].acct.(sent := s.ts[step.t].acct.sent + 1)
            && s'.ts[step.r].acct == s.ts[step.r].acct.(received := s.ts[step.r].acct.received + 1)
            && !Registered(s.ts[step.t].pc) && !Registered(s'.ts[step.t].pc) && !s'.ts[step.t].pc.Done?
            && s.ts[step.r].pc.Parked?
            && s'.ts[step.r].pc ==
               if step.SendTo? then Got(s.ts[step.r].pc.tk, s.ts[step.t].pc.v) else GotBit(s.ts[step.r].pc.tk)
  {
  }
}
