/** Properties of whole runs of the futex protocol. */
module FutexRuns {
  import opened Machine
  import opened FutexTable
  import opened FutexProtocol
  import opened FutexInvariant

  lemma {:induction false} RunInv(r: Run, k: nat)
    requires IsRun(r) && k < |r.ss|
    ensures Inv(r.ss[k])
  {
    if k == 0 {
      InitInv(r.ss[0]);
    } else {
      RunInv(r, k - 1);
      assert Follows(r, k - 1);
      StepInv(r.ss[k - 1], r.steps[k - 1]);
    }
  }

  // Calls and their arguments

  /** The call that a thread is in, or has just returned from, as its program point shows it. */
  function CallOf(pc: PC): Call
    requires !pc.Idle?
  {
    match pc
    case Check(w) => WaitCall(w)
    case Enter(w) => WaitCall(w)
    case Look(a, n) => WakeCall(a, n)
    case Hold(a, n, _) => WakeCall(a, n)
    case Send(a, n, _, _, _) => WakeCall(a, n)
    case Lock(m, n) => WakeBitsCall(m, n)
    case Scan(m, n, _, _) => WakeBitsCall(m, n)
    case Pump(m, n, _, _, _) => WakeBitsCall(m, n)
    case Done(call, _) => call
    case Select(tk) => WaitCall(tk.w)
    case Parked(tk) => WaitCall(tk.w)
    case Got(tk, _) => WaitCall(tk.w)
    case GotBit(tk) => WaitCall(tk.w)
    case Leave(tk, _) => WaitCall(tk.w)
  }

  predicate Begins(step: Step, t: nat) { step.Begin? && step.t == t }

  /** A call begins with the arguments it was given, at a point that has not returned yet. */
  lemma CallBegins(s: State, t: nat, c: Call)
    requires Enabled(s, Begin(t, c))
    ensures var pc := PCOf(Apply(s, Begin(t, c)), t); !pc.Idle? && !pc.Done? && CallOf(pc) == c
  {
  }

  /** No other step changes the arguments of a call. */
  lemma CallKept(s: State, step: Step, s': State, t: nat)
    requires Enabled(s, step) && s' == Apply(s, step) && !Begins(step, t)
    ensures PCOf(s', t).Idle? <==> PCOf(s, t).Idle?
    ensures !PCOf(s, t).Idle? ==> CallOf(PCOf(s', t)) == CallOf(PCOf(s, t))
  {
    if Receives(step, t) {
      TwoMove(s, step);
    } else if Actor(step) != t {
      OthersStay(s, step, t);
    } else if step.SendTo? || step.PumpTo? {
      TwoMove(s, step);
    } else if WaitSide(step) {
      WaitKeepsCall(s, step, t);
    } else {
      WakeKeepsCall(s, step, t);
    }
  }

  lemma WaitKeepsCall(s: State, step: Step, t: nat)
    requires Enabled(s, step) && Actor(step) == t && WaitSide(step) && !step.Begin?
    ensures var p, q := PCOf(s, t), PCOf(Apply(s, step), t); !p.Idle? && !q.Idle? && CallOf(q) == CallOf(p)
  {
  }

  lemma WakeKeepsCall(s: State, step: Step, t: nat)
    requires Enabled(s, step) && Actor(step) == t && !WaitSide(step) && !step.SendTo? && !step.PumpTo?
    ensures var p, q := PCOf(s, t), PCOf(Apply(s, step), t); !p.Idle? && !q.Idle? && CallOf(q) == CallOf(p)
  {
  }

  /** From state `from` to state `to` thread `t` is in the call `c`, or has returned from it. */
  ghost predicate InCall(r: Run, from: nat, to: nat, t: nat, c: Call) {
    forall x :: from <= x <= to && x < |r.ss| ==> !PCOf(r.ss[x], t).Idle? && CallOf(PCOf(r.ss[x], t)) == c
  }

  /**
   Whatever a thread is doing or has just returned from, it began with exactly these arguments: address, count,
   mask, kind and timeout of its program point are those of its last Begin step.
   */
  lemma {:induction false} CallBegun(r: Run, k: nat, t: nat) returns (j: nat)
    requires IsRun(r) && k < |r.ss| && !PCOf(r.ss[k], t).Idle?
    ensures j < k && r.steps[j] == Begin(t, CallOf(PCOf(r.ss[k], t)))
    ensures forall x :: j < x < k ==> !Begins(r.steps[x], t)
    ensures InCall(r, j + 1, k, t, CallOf(PCOf(r.ss[k], t)))
  {
    assert Follows(r, k - 1);
    if Begins(r.steps[k - 1], t) {
      j := k - 1;
      CallBegins(r.ss[j], t, r.steps[j].call);
    } else {
      CallKept(r.ss[k - 1], r.steps[k - 1], r.ss[k], t);
      j := CallBegun(r, k - 1, t);
    }
  }

  /** The call that returns is the call that was made. */
  lemma {:induction false} CallAnswered(r: Run, j: nat, k: nat, t: nat, c: Call)
    requires Linked(r) && j < k < |r.ss| && r.steps[j] == Begin(t, c)
    requires forall x :: j < x < k ==> !Begins(r.steps[x], t)
    ensures InCall(r, j + 1, k, t, c)
    decreases k
  {
    assert Follows(r, k - 1);
    if k == j + 1 {
      CallBegins(r.ss[j], t, c);
    } else {
      CallAnswered(r, j, k - 1, t, c);
      assert !PCOf(r.ss[k - 1], t).Idle? && CallOf(PCOf(r.ss[k - 1], t)) == c;
      CallKept(r.ss[k - 1], r.steps[k - 1], r.ss[k], t);
    }
  }

  // Reference counts

  /**
   Before Close, in every reachable state: an entry exists exactly when somebody is registered
   under its key, its count is the number of those threads, and every registered thread holds
   the very channels that are in the tables now.
   */
  lemma CountsExact(r: Run, k: nat)
    requires IsRun(r) && k < |r.ss| && !r.ss[k].tab.nilled
    ensures var s := r.ss[k];
            && (forall a: Addr :: a in s.tab.awaits <==> Total(RegisteredAt(AtAddr(a)), s.ts) > 0)
            && (forall a: Addr :: a in s.tab.awaits ==> s.tab.awaits[a].ref == Total(RegisteredAt(AtAddr(a)), s.ts))
            && (forall b: Mask :: b in s.tab.bits <==> Total(RegisteredAt(AtMask(b)), s.ts) > 0)
            && (forall b: Mask :: b in s.tab.bits ==> s.tab.bits[b].ref == Total(RegisteredAt(AtMask(b)), s.ts))
            && (forall i :: 0 <= i < |s.ts| && Registered(s.ts[i].pc) ==>
                  var tk := s.ts[i].pc.tk;
                  && tk.w.addr in s.tab.awaits && s.tab.awaits[tk.w.addr].ch == tk.ch1
                  && (tk.w.kind.Bits? ==> tk.w.kind.mask in s.tab.bits && s.tab.bits[tk.w.kind.mask].ch == tk.ch2))
  {
    RunInv(r, k);
    var s := r.ss[k];
    forall a: Addr ensures RefOf(s.tab, AtAddr(a)) == Total(RegisteredAt(AtAddr(a)), s.ts) {
    }
    forall b: Mask ensures RefOf(s.tab, AtMask(b)) == Total(RegisteredAt(AtMask(b)), s.ts) {
    }
    forall i | 0 <= i < |s.ts| && Registered(s.ts[i].pc) ensures TicketOk(s.tab, s.closed, s.ts[i].pc.tk) {
      assert ThreadOk(s.tab, s.closed, s.ts[i]);
    }
  }

  // Conservation of deliveries

  /** What can be seen of a run from outside the kernel, and the rendezvous inside it. */
  datatype Event = WakeReported | WaitReturnedZero | Rendezvous

  /** How much a step from `s` to `s'` adds to an event count. */
  function Observed(e: Event, s: State, step: Step, s': State): nat {
    var t := Actor(step);
    if e.Rendezvous? then (if step.SendTo? || step.PumpTo? then 1 else 0)
    else if !(0 <= t < |s.ts| == |s'.ts|) || s.ts[t].pc.Done? || !s'.ts[t].pc.Done? || s'.ts[t].pc.res.Fail? then 0
    else
      var pc := s'.ts[t].pc;
      match e
      case WakeReported => if pc.call.WaitCall? then 0 else ToU32(pc.res.v)
      case WaitReturnedZero => if pc.call.WaitCall? && pc.res.v == 0 then 1 else 0
      case Rendezvous => 0
  }

  /** The event count over the first `k` steps. */
  function Tally(e: Event, r: Run, k: nat): nat
    requires k <= |r.steps| < |r.ss|
  {
    if k == 0 then 0 else Tally(e, r, k - 1) + Observed(e, r.ss[k - 1], r.steps[k - 1], r.ss[k])
  }

  /** The accounts kept in the state are exactly the events seen. */
  ghost predicate Booked(r: Run, k: nat)
    requires k <= |r.steps| < |r.ss|
  {
    var ts := r.ss[k].ts;
    && Tally(WakeReported, r, k) == Total(Reported, ts)
    && Tally(Rendezvous, r, k) == Total(Received, ts)
    && Tally(WaitReturnedZero, r, k) + Total(LeavingZero, ts) == Total(Zeros, ts)
  }

  /** The bookkeeping of replacing thread `t`. */
  lemma BookOne(ts: seq<Thread>, t: nat, x: Thread)
    requires t < |ts|
    ensures forall m :: m in {Reported, Received, Zeros, LeavingZero} ==>
              Total(m, ts[t := x]) + Weight(m, ts[t]) == Total(m, ts) + Weight(m, x)
  {
    forall m | m in {Reported, Received, Zeros, LeavingZero}
      ensures Total(m, ts[t := x]) + Weight(m, ts[t]) == Total(m, ts) + Weight(m, x)
    {
      TotalUpdate(m, ts, t, x);
    }
  }

  ghost predicate BooksBalance(s: State, step: Step, s': State) {
    && Total(Reported, s'.ts) == Total(Reported, s.ts) + Observed(WakeReported, s, step, s')
    && Total(Received, s'.ts) == Total(Received, s.ts) + Observed(Rendezvous, s, step, s')
    && Total(Zeros, s'.ts) + Total(LeavingZero, s.ts) ==
       Total(Zeros, s.ts) + Total(LeavingZero, s'.ts) + Observed(WaitReturnedZero, s, step, s')
  }

  lemma BookDelivery(s: State, step: Step)
    requires Enabled(s, step) && (step.SendTo? || step.PumpTo?)
    ensures BooksBalance(s, step, Apply(s, step))
  {
    TwoMove(s, step);
    BookTwo(s.ts, Apply(s, step).ts, step.t, step.r);
  }

  /** The bookkeeping of a rendezvous: one more delivery received, and nothing else. */
  lemma BookTwo(ts: seq<Thread>, ts': seq<Thread>, t: nat, r: nat)
    requires t < |ts| == |ts'| && r < |ts| && t != r && ts' == ts[t := ts'[t]][r := ts'[r]]
    requires ts'[t].acct == ts[t].acct.(sent := ts[t].acct.sent + 1)
    requires ts'[r].acct == ts[r].acct.(received := ts[r].acct.received + 1)
    requires !ts[t].pc.Leave? && !ts'[t].pc.Leave? && !ts[r].pc.Leave? && !ts'[r].pc.Leave?
    ensures Total(Reported, ts') == Total(Reported, ts) && Total(Received, ts') == Total(Received, ts) + 1
    ensures Total(Zeros, ts') == Total(Zeros, ts) && Total(LeavingZero, ts') == Total(LeavingZero, ts)
  {
    BookOne(ts, t, ts'[t]);
    BookOne(ts[t := ts'[t]], r, ts'[r]);
  }

  /** What a step other than a rendezvous writes into the account of the thread that takes it. */
  lemma OwnAccount(s: State, step: Step)
    requires Enabled(s, step) && !step.SendTo? && !step.PumpTo? && Actor(step) >= 0
    ensures var s' := Apply(s, step);
            var y, x := s.ts[Actor(step)], s'.ts[Actor(step)];
            && x.acct.received == y.acct.received
            && x.acct.reported == y.acct.reported + Observed(WakeReported, s, step, s')
            && x.acct.zeros + Weight(LeavingZero, y) ==
               y.acct.zeros + Weight(LeavingZero, x) + Observed(WaitReturnedZero, s, step, s')
  {
  }

  lemma BookStep(s: State, step: Step)
    requires Enabled(s, step)
    ensures BooksBalance(s, step, Apply(s, step))
  {
    if step.SendTo? || step.PumpTo? {
      BookDelivery(s, step);
    } else {
      OneMoves(s, step);
      if Actor(step) >= 0 {
        OwnAccount(s, step);
        BookOwn(s, step, Apply(s, step), Actor(step));
      }
    }
  }

  /** The bookkeeping of a step of one thread, from what it writes into its own account. */
  lemma BookOwn(s: State, step: Step, s': State, t: nat)
    requires t < |s.ts| == |s'.ts| && s'.ts == s.ts[t := s'.ts[t]] && !step.SendTo? && !step.PumpTo?
    requires s'.ts[t].acct.received == s.ts[t].acct.received
    requires s'.ts[t].acct.reported == s.ts[t].acct.reported + Observed(WakeReported, s, step, s')
    requires s'.ts[t].acct.zeros + Weight(LeavingZero, s.ts[t]) ==
             s.ts[t].acct.zeros + Weight(LeavingZero, s'.ts[t]) + Observed(WaitReturnedZero, s, step, s')
    ensures BooksBalance(s, step, s')
  {
    BookOne(s.ts, t, s'.ts[t]);
  }

  lemma {:induction false} RunBooked(r: Run, k: nat)
    requires IsRun(r) && k < |r.ss|
    ensures Booked(r, k)
  {
    if k == 0 {
      TotalZero(Reported, r.ss[0].ts);
      TotalZero(Received, r.ss[0].ts);
      TotalZero(Zeros, r.ss[0].ts);
      TotalZero(LeavingZero, r.ss[0].ts);
    } else {
      RunBooked(r, k - 1);
      assert Follows(r, k - 1);
      BookStep(r.ss[k - 1], r.steps[k - 1]);
    }
  }

  lemma {:induction false} SentSplits(ts: seq<Thread>)
    requires forall i :: 0 <= i < |ts| ==> ts[i].acct.sent == ts[i].acct.reported + Weight(InProgress, ts[i])
    ensures Total(Sent, ts) == Total(Reported, ts) + Total(InProgress, ts)
  {
    if ts != [] {
      SentSplits(ts[1..]);
    }
  }

  /**
   Conservation: at every point of every run the counts returned by finished wakes, read as
   unsigned, plus the counters of the wakes still running, are exactly the rendezvous that took place.
   */
  lemma DeliveriesConserved(r: Run, k: nat)
    requires IsRun(r) && k < |r.ss|
    ensures Tally(WakeReported, r, k) + Total(InProgress, r.ss[k].ts) == Tally(Rendezvous, r, k)
    ensures forall i :: 0 <= i < |r.ss[k].ts| ==> r.ss[k].ts[i].acct.received <= r.ss[k].ts[i].acct.parks
  {
    RunInv(r, k);
    RunBooked(r, k);
    var s := r.ss[k];
    forall i | 0 <= i < |s.ts| ensures AccountOk(s.tab.nilled, s.ts[i]) {
      assert ThreadOk(s.tab, s.closed, s.ts[i]);
    }
    SentSplits(s.ts);
  }

  /** Before Close no more waits have returned 0 than wakes have reported or are about to report. */
  lemma NoExcessWakeups(r: Run, k: nat)
    requires IsRun(r) && k < |r.ss| && !r.ss[k].tab.nilled
    ensures Tally(WaitReturnedZero, r, k) <= Tally(WakeReported, r, k) + Total(InProgress, r.ss[k].ts)
  {
    RunInv(r, k);
    RunBooked(r, k);
    DeliveriesConserved(r, k);
    var s := r.ss[k];
    forall i | 0 <= i < |s.ts| ensures Weight(Zeros, s.ts[i]) <= Weight(Received, s.ts[i]) {
      assert ThreadOk(s.tab, s.closed, s.ts[i]);
    }
    TotalMonotone(Zeros, Received, s.ts);
  }

  // Where a successful return comes from

  /** At step `j` thread `u`, inside a WAKE on `a`, reads `v` from the word. */
  ghost predicate WakeReads(r: Run, j: nat, u: nat, a: Addr, v: u32)
    requires |r.ss| == |r.steps| + 1
  {
    && j < |r.steps| && r.steps[j] == ReadWord(u)
    && PCOf(r.ss[j], u).Hold? && PCOf(r.ss[j], u).addr == a
    && a in r.ss[j].mem && r.ss[j].mem[a] == v
  }

  /** From state `from` to state `to` thread `u` stays in the send loop of one WAKE on `a` with value `v`. */
  ghost predicate StaysSending(r: Run, from: nat, to: nat, u: nat, a: Addr, v: u32) {
    forall x :: from <= x <= to && x < |r.ss| ==>
      PCOf(r.ss[x], u).Send? && PCOf(r.ss[x], u).addr == a && PCOf(r.ss[x], u).v == v
  }

  /** From state `from` to state `to` thread `t` stays at `pc`. */
  ghost predicate Stays(r: Run, from: nat, to: nat, t: nat, pc: PC) {
    forall x :: from <= x <= to && x < |r.ss| ==> PCOf(r.ss[x], t) == pc
  }

  /** A sender's value was read from its word during its own call. */
  ghost predicate SenderSourced(r: Run, k: nat, u: nat)
    requires |r.ss| == |r.steps| + 1 && k < |r.ss|
  {
    var pc := PCOf(r.ss[k], u);
    pc.Send? ==>
      exists j: nat :: j < k && WakeReads(r, j, u, pc.addr, pc.v) && StaysSending(r, j + 1, k, u, pc.addr, pc.v)
  }

  /** The value `v` reached a waiter of `a` at step `d`, from a WAKE on `a` that had read it at step `j`. */
  ghost predicate Sourced(r: Run, j: nat, d: nat, u: nat, t: nat, a: Addr, v: u32)
    requires |r.ss| == |r.steps| + 1
  {
    && j < d < |r.steps| && r.steps[d] == SendTo(u, t)
    && WakeReads(r, j, u, a, v) && StaysSending(r, j + 1, d, u, a, v)
  }

  ghost predicate ValueSourced(r: Run, k: nat, t: nat)
    requires |r.ss| == |r.steps| + 1 && k < |r.ss|
  {
    var pc := PCOf(r.ss[k], t);
    pc.Got? ==>
      exists j: nat, d: nat, u: nat ::
        d < k && Sourced(r, j, d, u, t, pc.tk.w.addr, pc.v) && Stays(r, d + 1, k, t, pc)
  }

  lemma {:induction false} SendersSourced(r: Run, k: nat, u: nat)
    requires IsRun(r) && k < |r.ss|
    ensures SenderSourced(r, k, u)
  {
    var pc := PCOf(r.ss[k], u);
    if pc.Send? {
      var s, step := r.ss[k - 1], r.steps[k - 1];
      SendersSourced(r, k - 1, u);
      assert Follows(r, k - 1);
      var pre := PCOf(s, u);
      if pre.Send? {
        var j: nat :| j < k - 1 && WakeReads(r, j, u, pre.addr, pre.v)
                      && StaysSending(r, j + 1, k - 1, u, pre.addr, pre.v);
        SendKept(s, step, u);
        assert StaysSending(r, j + 1, k, u, pc.addr, pc.v);
      } else {
        SendEntered(s, step, u);
        assert WakeReads(r, k - 1, u, pc.addr, pc.v) && StaysSending(r, k, k, u, pc.addr, pc.v);
      }
    }
  }

  /** A thread that stays in a send loop keeps its address, its value and its channel. */
  lemma SendKept(s: State, step: Step, u: nat)
    requires Enabled(s, step) && PCOf(s, u).Send? && PCOf(Apply(s, step), u).Send?
    ensures var p, q := PCOf(s, u), PCOf(Apply(s, step), u); p.addr == q.addr && p.v == q.v && p.ch == q.ch
  {
  }

  lemma SendEntered(s: State, step: Step, u: nat)
    requires Enabled(s, step) && !PCOf(s, u).Send? && PCOf(Apply(s, step), u).Send?
    ensures step == ReadWord(u) && PCOf(s, u).Hold?
    ensures PCOf(s, u).addr == PCOf(Apply(s, step), u).addr
    ensures var q := PCOf(Apply(s, step), u); q.addr in s.mem && s.mem[q.addr] == q.v
  {
  }

  /** The step brings thread `t` the value of the sender, on the channel that the thread waits on. */
  predicate ComesFrom(s: State, step: Step, s': State, t: nat) {
    && step.SendTo? && step.r == t && PCOf(s, step.t).Send? && PCOf(s', t).Got? && PCOf(s, t).Parked?
    && PCOf(s, step.t).v == PCOf(s', t).v && PCOf(s, step.t).ch == PCOf(s, t).tk.ch1 && PCOf(s', t).tk == PCOf(s, t).tk
  }

  lemma GotEntered(s: State, step: Step, s': State, t: nat)
    requires Enabled(s, step) && s' == Apply(s, step) && PCOf(s', t).Got? && PCOf(s, t) != PCOf(s', t)
    ensures ComesFrom(s, step, s', t)
  {
    if Actor(step) != t && !Receives(step, t) {
      OthersStay(s, step, t);
    } else if Receives(step, t) {
      TwoMove(s, step);
    }
  }

  /** A channel serves one address. */
  lemma SameAddress(s: State, u: nat, t: nat)
    requires Inv(s) && PCOf(s, u).Send? && WordReceiver(PCOf(s, t), PCOf(s, u).ch)
    ensures PCOf(s, u).addr == PCOf(s, t).tk.w.addr
  {
    assert ThreadOk(s.tab, s.closed, s.ts[u]) && ThreadOk(s.tab, s.closed, s.ts[t]);
  }

  /** The value arrives with step `k - 1`, from a sender `u` that has it from its own word. */
  lemma ValueArrives(r: Run, k: nat, t: nat, u: nat)
    requires |r.ss| == |r.steps| + 1 && 0 < k < |r.ss| && PCOf(r.ss[k], t).Got? && r.steps[k - 1] == SendTo(u, t)
    requires var p, q := PCOf(r.ss[k - 1], u), PCOf(r.ss[k], t); p.Send? && p.addr == q.tk.w.addr && p.v == q.v
    requires SenderSourced(r, k - 1, u)
    ensures ValueSourced(r, k, t)
  {
    var pc := PCOf(r.ss[k], t);
    var j: nat :| j < k - 1 && WakeReads(r, j, u, pc.tk.w.addr, pc.v)
                  && StaysSending(r, j + 1, k - 1, u, pc.tk.w.addr, pc.v);
    assert Sourced(r, j, k - 1, u, t, pc.tk.w.addr, pc.v) && Stays(r, k, k, t, pc);
  }

  lemma ValueReceived(r: Run, k: nat, t: nat)
    requires IsRun(r) && 0 < k < |r.ss| && PCOf(r.ss[k], t).Got? && PCOf(r.ss[k - 1], t) != PCOf(r.ss[k], t)
    ensures ValueSourced(r, k, t)
  {
    var s, step := r.ss[k - 1], r.steps[k - 1];
    assert ComesFrom(s, step, r.ss[k], t) by {
      assert Follows(r, k - 1);
      GotEntered(s, step, r.ss[k], t);
    }
    assert PCOf(s, step.t).addr == PCOf(s, t).tk.w.addr by {
      RunInv(r, k - 1);
      SameAddress(s, step.t, t);
    }
    SendersSourced(r, k - 1, step.t);
    ValueArrives(r, k, t, step.t);
  }

  /** A waiter that has not moved still has the value from where it came. */
  lemma ValueKept(r: Run, k: nat, t: nat)
    requires |r.ss| == |r.steps| + 1 && 0 < k < |r.ss| && ValueSourced(r, k - 1, t)
    requires PCOf(r.ss[k], t).Got? && PCOf(r.ss[k - 1], t) == PCOf(r.ss[k], t)
    ensures ValueSourced(r, k, t)
  {
    var pc := PCOf(r.ss[k], t);
    var j: nat, d: nat, u: nat :| d < k - 1 && Sourced(r, j, d, u, t, pc.tk.w.addr, pc.v)
                                  && Stays(r, d + 1, k - 1, t, pc);
    StaysOn(r, d + 1, k, t, pc);
  }

  lemma StaysOn(r: Run, from: nat, k: nat, t: nat, pc: PC)
    requires 0 < k < |r.ss| && Stays(r, from, k - 1, t, pc) && PCOf(r.ss[k], t) == pc
    ensures Stays(r, from, k, t, pc)
  {
  }

  lemma {:induction false} ValuesSourced(r: Run, k: nat, t: nat)
    requires IsRun(r) && k < |r.ss|
    ensures ValueSourced(r, k, t)
  {
    var pc := PCOf(r.ss[k], t);
    if pc.Got? {
      if PCOf(r.ss[k - 1], t) == pc {
        ValuesSourced(r, k - 1, t);
        ValueKept(r, k, t);
      } else {
        ValueReceived(r, k, t);
      }
    }
  }

  /** The decision to return 0 was taken at step `d`, on a value from a WAKE on the same address. */
  ghost predicate ByWord(r: Run, d: nat, t: nat, w: Wait)
    requires |r.ss| == |r.steps| + 1
  {
    && d < |r.steps| && r.steps[d] == Resume(t)
    && PCOf(r.ss[d], t).Got? && PCOf(r.ss[d], t).tk.w == w
    && PCOf(r.ss[d], t).v != w.val
    && exists j: nat, e: nat, u: nat ::
         e < d && Sourced(r, j, e, u, t, w.addr, PCOf(r.ss[d], t).v) && Stays(r, e + 1, d, t, PCOf(r.ss[d], t))
  }

  /** The decision to return 0 was taken at step `d`, on the waiter's own word read again. */
  ghost predicate ByReread(r: Run, d: nat, t: nat, w: Wait)
    requires |r.ss| == |r.steps| + 1
  {
    && d < |r.steps| && r.steps[d] == Reread(t)
    && PCOf(r.ss[d], t).GotBit? && PCOf(r.ss[d], t).tk.w == w && w.kind.Bits?
    && w.addr in r.ss[d].mem && r.ss[d].mem[w.addr] != w.val
  }

  /** A thread gets to the end of its wait loop only by a step of its own, and only by these. */
  lemma LeaveEntered(s: State, step: Step, t: nat)
    requires Enabled(s, step) && PCOf(Apply(s, step), t).Leave? && PCOf(s, t) != PCOf(Apply(s, step), t)
    ensures step in {Resume(t), Reread(t), Timeout(t), ClosedWord(t)}
  {
    if Actor(step) != t && !Receives(step, t) {
      OthersStay(s, step, t);
    } else if Receives(step, t) {
      TwoMove(s, step);
    }
  }

  /** A wait returns by deregistering, or before it has registered. */
  lemma WaitEnded(s: State, step: Step, t: nat)
    requires Enabled(s, step) && PCOf(s, t) != PCOf(Apply(s, step), t)
    requires PCOf(Apply(s, step), t).Done? && PCOf(Apply(s, step), t).call.WaitCall?
    ensures step in {CheckWord(t), BadTimeout(t), Deregister(t)}
  {
    if Actor(step) != t && !Receives(step, t) {
      OthersStay(s, step, t);
    } else if Receives(step, t) {
      TwoMove(s, step);
    }
  }

  lemma ZeroDecided(s: State, step: Step, t: nat)
    requires Enabled(s, step)
    requires var q := PCOf(Apply(s, step), t); q.Leave? && q.res == Ok(0) && q != PCOf(s, t)
    ensures var q := PCOf(Apply(s, step), t);
            || (step == Resume(t) && PCOf(s, t) == Got(q.tk, PCOf(s, t).v) && PCOf(s, t).v != q.tk.w.val)
            || (step == Reread(t) && PCOf(s, t) == GotBit(q.tk)
                && q.tk.w.addr in s.mem && s.mem[q.tk.w.addr] != q.tk.w.val)
  {
    LeaveEntered(s, step, t);
  }

  lemma ZeroReturned(s: State, step: Step, t: nat, w: Wait)
    requires Enabled(s, step) && PCOf(Apply(s, step), t) == Done(WaitCall(w), Ok(0))
    requires PCOf(s, t) != PCOf(Apply(s, step), t)
    ensures step == Deregister(t) && PCOf(s, t).Leave? && PCOf(s, t).res == Ok(0) && PCOf(s, t).tk.w == w
  {
    WaitEnded(s, step, t);
  }

  lemma BitsOnly(s: State, step: Step, t: nat)
    requires Enabled(s, step) && PCOf(Apply(s, step), t).GotBit? && !PCOf(s, t).GotBit?
    ensures PCOf(Apply(s, step), t).tk.w.kind.Bits?
  {
  }

  lemma {:induction false} GotBitIsBits(r: Run, k: nat, t: nat)
    requires IsRun(r) && k < |r.ss|
    ensures PCOf(r.ss[k], t).GotBit? ==> PCOf(r.ss[k], t).tk.w.kind.Bits?
  {
    if k > 0 && PCOf(r.ss[k], t).GotBit? {
      assert Follows(r, k - 1);
      if PCOf(r.ss[k - 1], t).GotBit? {
        GotBitIsBits(r, k - 1, t);
        GotBitKept(r.ss[k - 1], r.steps[k - 1], t);
      } else {
        BitsOnly(r.ss[k - 1], r.steps[k - 1], t);
      }
    }
  }

  lemma GotBitKept(s: State, step: Step, t: nat)
    requires Enabled(s, step) && PCOf(Apply(s, step), t).GotBit? && PCOf(s, t).GotBit?
    ensures PCOf(Apply(s, step), t) == PCOf(s, t)
  {
  }

  /** From state `from` to state `to` thread `t` is returning 0 from the wait `w`. */
  ghost predicate Returning(r: Run, from: nat, to: nat, t: nat, w: Wait) {
    forall x :: from <= x <= to && x < |r.ss| ==>
      var pc := PCOf(r.ss[x], t);
      pc == Done(WaitCall(w), Ok(0)) || (pc.Leave? && pc.tk.w == w && pc.res == Ok(0))
  }

  lemma {:induction false} LeaveSourced(r: Run, k: nat, t: nat) returns (d: nat)
    requires IsRun(r) && k < |r.ss|
    requires PCOf(r.ss[k], t).Leave? && PCOf(r.ss[k], t).res == Ok(0)
    ensures d < k
    ensures var w := PCOf(r.ss[k], t).tk.w; (ByWord(r, d, t, w) || ByReread(r, d, t, w)) && Returning(r, d + 1, k, t, w)
  {
    var s, step := r.ss[k - 1], r.steps[k - 1];
    assert Follows(r, k - 1);
    if PCOf(s, t) == PCOf(r.ss[k], t) {
      d := LeaveSourced(r, k - 1, t);
    } else {
      d := k - 1;
      ZeroDecided(s, step, t);
      ValuesSourced(r, d, t);
      GotBitIsBits(r, d, t);
    }
  }

  /**
   No false success: whenever a WAIT or WAIT_BITSET has returned 0, it had either received a value
   other than `val` that a WAKE on the same address read from that word during its own call, or,
   for a bitset wait, read its own word again and found it different from `val`.
   */
  lemma {:induction false} NoFalseSuccess(r: Run, k: nat, t: nat, w: Wait) returns (d: nat)
    requires IsRun(r) && k < |r.ss| && PCOf(r.ss[k], t) == Done(WaitCall(w), Ok(0))
    ensures d < k && Returning(r, d + 1, k, t, w)
    ensures ByWord(r, d, t, w) || ByReread(r, d, t, w)
  {
    var s, step := r.ss[k - 1], r.steps[k - 1];
    assert Follows(r, k - 1);
    if PCOf(s, t) == PCOf(r.ss[k], t) {
      d := NoFalseSuccess(r, k - 1, t, w);
    } else {
      ZeroReturned(s, step, t, w);
      d := LeaveSourced(r, k - 1, t);
    }
  }

  // What a waiter waits for

  /** Inside the wait `w`, past the first look at the word. */
  predicate WaitsFor(pc: PC, w: Wait) { pc == Enter(w) || (Registered(pc) && pc.tk.w == w) }

  lemma WaitEntered(s: State, step: Step, t: nat, w: Wait)
    requires Enabled(s, step) && WaitsFor(PCOf(Apply(s, step), t), w) && !WaitsFor(PCOf(s, t), w)
    ensures step == CheckWord(t) && w.addr in s.mem && s.mem[w.addr] == w.val
  {
    if Actor(step) != t && !Receives(step, t) {
      OthersStay(s, step, t);
    }
  }

  /** A thread registers and waits only after it has found `val` in the word, in the same call. */
  lemma {:induction false} WaitsOnMatch(r: Run, k: nat, t: nat, w: Wait) returns (d: nat)
    requires IsRun(r) && k < |r.ss| && WaitsFor(PCOf(r.ss[k], t), w)
    ensures d < k && r.steps[d] == CheckWord(t) && w.addr in r.ss[d].mem && r.ss[d].mem[w.addr] == w.val
    ensures forall x :: d < x <= k ==> WaitsFor(PCOf(r.ss[x], t), w)
  {
    if WaitsFor(PCOf(r.ss[k - 1], t), w) {
      d := WaitsOnMatch(r, k - 1, t, w);
    } else {
      d := k - 1;
      assert Follows(r, d);
      WaitEntered(r.ss[d], r.steps[d], t, w);
    }
  }

  // Where an error comes from

  /** Step `step` from state `s` is a reason for the wait `w` of thread `t` to fail with `e`. */
  ghost predicate Excuse(s: State, step: Step, t: nat, w: Wait, e: Errno) {
    match e
    case EAGAIN => step == CheckWord(t) && w.addr in s.mem && s.mem[w.addr] != w.val
    case EFAULT => (step in {CheckWord(t), Reread(t)} && w.addr !in s.mem) || (step == BadTimeout(t) && w.timed)
    case ETIMEDOUT => step == Timeout(t) && w.timed
    case EPERM => step == ClosedWord(t) && s.tab.nilled
  }

  /** The wait `w` of thread `t` has failed with `e`, or is on its way to return that. */
  predicate Failed(pc: PC, w: Wait, e: Errno) {
    pc == Done(WaitCall(w), Fail(e)) || (pc.Leave? && pc.tk.w == w && pc.res == Fail(e))
  }

  /** An error that the waiter takes out of its loop. */
  lemma FailureInside(s: State, step: Step, t: nat, w: Wait, e: Errno)
    requires Inv(s) && Enabled(s, step) && PCOf(Apply(s, step), t).Leave? && !PCOf(s, t).Leave?
    requires PCOf(Apply(s, step), t).tk.w == w && PCOf(Apply(s, step), t).res == Fail(e)
    ensures Excuse(s, step, t, w, e)
  {
    LeaveEntered(s, step, t);
  }

  /** An error that comes up before the waiter registers. */
  lemma FailureBefore(s: State, step: Step, t: nat, w: Wait, e: Errno)
    requires Enabled(s, step) && PCOf(Apply(s, step), t) == Done(WaitCall(w), Fail(e)) != PCOf(s, t)
    requires !PCOf(s, t).Leave?
    ensures Excuse(s, step, t, w, e)
  {
    WaitEnded(s, step, t);
  }

  lemma LeaveKept(s: State, step: Step, t: nat)
    requires Enabled(s, step) && PCOf(s, t).Leave?
    ensures var p, q := PCOf(s, t), PCOf(Apply(s, step), t); q == p || q == Done(WaitCall(p.tk.w), p.res)
  {
    if Actor(step) != t {
      OthersStay(s, step, t);
    }
  }

  lemma FailureDecided(s: State, s': State, step: Step, t: nat, w: Wait, e: Errno)
    requires Inv(s) && Enabled(s, step) && s' == Apply(s, step)
    requires Failed(PCOf(s', t), w, e) && !Failed(PCOf(s, t), w, e)
    ensures Excuse(s, step, t, w, e)
  {
    if PCOf(s, t).Leave? {
      LeaveKept(s, step, t);
    } else if PCOf(s', t).Leave? {
      FailureInside(s, step, t, w, e);
    } else {
      FailureBefore(s, step, t, w, e);
    }
  }

  lemma FailureArises(r: Run, d: nat, t: nat, w: Wait, e: Errno)
    requires IsRun(r) && d < |r.steps| && Failed(PCOf(r.ss[d + 1], t), w, e) && !Failed(PCOf(r.ss[d], t), w, e)
    ensures Excuse(r.ss[d], r.steps[d], t, w, e)
  {
    RunInv(r, d);
    assert Follows(r, d);
    FailureDecided(r.ss[d], r.ss[d + 1], r.steps[d], t, w, e);
  }

  /** Whenever a wait has failed, there is a step of its own call that justifies the error. */
  lemma {:induction false} ErrorsExplained(r: Run, k: nat, t: nat, w: Wait, e: Errno) returns (d: nat)
    requires IsRun(r) && k < |r.ss| && Failed(PCOf(r.ss[k], t), w, e)
    ensures d < k && Excuse(r.ss[d], r.steps[d], t, w, e)
    ensures forall x :: d < x <= k ==> Failed(PCOf(r.ss[x], t), w, e)
  {
    if Failed(PCOf(r.ss[k - 1], t), w, e) {
      d := ErrorsExplained(r, k - 1, t, w, e);
    } else {
      d := k - 1;
      FailureArises(r, d, t, w, e);
    }
  }

  /** A wake fails only when the word of a WAKE cannot be read, in the same call; a WAKE_BITSET never fails. */
  lemma {:induction false} WakeErrors(r: Run, k: nat, t: nat, call: Call, e: Errno) returns (d: nat)
    requires IsRun(r) && k < |r.ss| && PCOf(r.ss[k], t) == Done(call, Fail(e)) && !call.WaitCall?
    ensures call.WakeCall? && e == EFAULT
    ensures d < k && r.steps[d] == ReadWord(t) && call.addr !in r.ss[d].mem
    ensures Stays(r, d + 1, k, t, Done(call, Fail(e)))
  {
    if PCOf(r.ss[k - 1], t) == PCOf(r.ss[k], t) {
      d := WakeErrors(r, k - 1, t, call, e);
      StaysOn(r, d + 1, k, t, Done(call, Fail(e)));
    } else {
      d := k - 1;
      assert Follows(r, d);
      WakeFails(r.ss[d], r.steps[d], r.ss[k], t, call, e);
    }
  }

  lemma WakeFails(s: State, step: Step, s': State, t: nat, call: Call, e: Errno)
    requires Enabled(s, step) && s' == Apply(s, step) && PCOf(s', t) == Done(call, Fail(e)) && !call.WaitCall?
    requires PCOf(s, t) != Done(call, Fail(e))
    ensures call.WakeCall? && e == EFAULT && step == ReadWord(t) && call.addr !in s.mem
  {
    if Actor(step) != t && !Receives(step, t) {
      OthersStay(s, step, t);
    } else if Receives(step, t) {
      TwoMove(s, step);
    }
  }
}
