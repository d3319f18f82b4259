/**
 Exactness of a wake when nothing else interferes with its waiters: the call returns the
 smaller of `val` and the number of waiters it is aimed at, however the other steps interleave.
 */
module FutexQuiet {
  import opened Machine
  import opened FutexTable
  import opened FutexProtocol
  import opened FutexInvariant
  import opened FutexRuns

  predicate Member(pc: PC, g: Group) { Registered(pc) && InGroup(pc.tk.w, g) }

  predicate Sleeper(pc: PC, g: Group) { pc.Parked? && InGroup(pc.tk.w, g) }

  predicate WordDiffers(mem: map<Addr, u32>, w: Wait) { w.addr in mem && mem[w.addr] != w.val }

  /** A registered waiter that, once woken, returns instead of waiting again. */
  predicate Settled(mem: map<Addr, u32>, pc: PC) {
    match pc
    case Parked(tk) => WordDiffers(mem, tk.w)
    case GotBit(tk) => WordDiffers(mem, tk.w)
    case Got(tk, v) => v != tk.w.val
    case Leave(_, _) => true
    case _ => false
  }

  predicate Agree(m: map<Addr, u32>, m': map<Addr, u32>, a: Addr) {
    (a in m <==> a in m') && (a in m ==> m[a] == m'[a])
  }

  /**
   Steps that leave the wake of thread `u` and the waiters of group `g` undisturbed. Waiters of the
   group must not register or time out and nobody but `u` wakes them; their words keep their values; no Close.
   Woken waiters may decide, deregister and return at any time, and all other threads do as they like.
   */
  ghost predicate Quiet(s: State, step: Step, u: nat, g: Group) {
    match step
    case Begin(t, _) => t != u
    case Register(t) => PCOf(s, t).Enter? && !InGroup(PCOf(s, t).w, g)
    case Timeout(t) => !Member(PCOf(s, t), g)
    case SendTo(t, r) => t == u || !Member(PCOf(s, r), g)
    case PumpTo(t, r) => t == u || !Member(PCOf(s, r), g)
    case Store(m) =>
      && (g.ByAddr? ==> Agree(s.mem, m, g.addr))
      && (forall i :: 0 <= i < |s.ts| && Member(s.ts[i].pc, g) ==> Agree(s.mem, m, s.ts[i].pc.tk.w.addr))
    case Close => false
    case NilMapPanic(_) => false
    case SendPanic(_) => false
    case PumpPanic(_) => false
    case ClosePanic => false
    case _ => true
  }

  ghost predicate Calm(s: State, g: Group) {
    && Inv(s) && !s.tab.nilled
    && forall i :: 0 <= i < |s.ts| && Member(s.ts[i].pc, g) ==> Settled(s.mem, s.ts[i].pc)
  }

  /** What a quiet step of another thread does to thread `i`: sleepers sleep on, nobody falls asleep. */
  ghost predicate Unwoken(s: State, s': State, g: Group, i: nat) {
    var p, q := PCOf(s, i), PCOf(s', i);
    && (Member(q, g) ==> Settled(s'.mem, q))
    && (Sleeper(p, g) || Sleeper(q, g) ==> p == q)
  }

  lemma QuietReceiver(s: State, step: Step, u: nat, g: Group, i: nat)
    requires Calm(s, g) && Enabled(s, step) && Quiet(s, step, u, g) && Actor(step) != u && Receives(step, i)
    ensures Unwoken(s, Apply(s, step), g, i)
  {
    TwoMove(s, step);
  }

  /** A thread of the group that is registered moves towards its return. */
  lemma QuietMember(s: State, step: Step, u: nat, g: Group, i: nat)
    requires Calm(s, g) && Enabled(s, step) && Quiet(s, step, u, g) && Actor(step) == i && !Receives(step, i)
    requires i < |s.ts| && Member(s.ts[i].pc, g)
    ensures Unwoken(s, Apply(s, step), g, i)
  {
    assert Settled(s.mem, s.ts[i].pc);
    match step
    case Resume(_) =>
    case Reread(_) =>
    case Deregister(_) =>
    case _ =>
  }

  /** A thread outside the group stays outside. */
  lemma QuietOutsider(s: State, step: Step, u: nat, g: Group, i: nat)
    requires Enabled(s, step) && Quiet(s, step, u, g) && Actor(step) == i && !Receives(step, i)
    requires i < |s.ts| && !Member(s.ts[i].pc, g)
    ensures !Member(PCOf(Apply(s, step), i), g)
  {
  }

  lemma QuietThread(s: State, step: Step, u: nat, g: Group, i: nat)
    requires Calm(s, g) && Enabled(s, step) && Quiet(s, step, u, g) && Actor(step) != u && i < |s.ts|
    ensures Unwoken(s, Apply(s, step), g, i)
  {
    if Receives(step, i) {
      QuietReceiver(s, step, u, g, i);
    } else if Actor(step) == i {
      if Member(s.ts[i].pc, g) {
        QuietMember(s, step, u, g, i);
      } else {
        QuietOutsider(s, step, u, g, i);
      }
    } else {
      OthersStay(s, step, i);
      if Member(s.ts[i].pc, g) {
        StoreQuiet(s, step, u, g, i);
      }
    }
  }

  lemma StoreQuiet(s: State, step: Step, u: nat, g: Group, i: nat)
    requires Enabled(s, step) && Quiet(s, step, u, g) && i < |s.ts| && Member(s.ts[i].pc, g)
    ensures Agree(s.mem, Apply(s, step).mem, s.ts[i].pc.tk.w.addr)
  {
  }

  lemma SameSleepers(s: State, s': State, g: Group)
    requires |s'.ts| == |s.ts| && forall i: nat :: i < |s.ts| ==> Unwoken(s, s', g, i)
    ensures Total(ParkedIn(g), s'.ts) == Total(ParkedIn(g), s.ts)
  {
    forall i: nat | i < |s.ts| ensures Weight(ParkedIn(g), s.ts[i]) == Weight(ParkedIn(g), s'.ts[i]) {
      assert Unwoken(s, s', g, i);
    }
    TotalSame(ParkedIn(g), s.ts, s'.ts);
  }

  lemma SameCount(s: State, step: Step)
    requires Enabled(s, step)
    ensures |Apply(s, step).ts| == |s.ts|
  {
  }

  /** A quiet step of another thread keeps everything the wake of `u` relies on. */
  lemma QuietOther(s: State, step: Step, u: nat, g: Group)
    requires Calm(s, g) && Enabled(s, step) && Quiet(s, step, u, g) && Actor(step) != u
    ensures var s' := Apply(s, step);
            && |s'.ts| == |s.ts|
            && (forall i: nat :: i < |s.ts| ==> Unwoken(s, s', g, i))
            && Total(ParkedIn(g), s'.ts) == Total(ParkedIn(g), s.ts)
  {
    var s' := Apply(s, step);
    SameCount(s, step);
    forall i: nat | i < |s.ts| ensures Unwoken(s, s', g, i) {
      QuietThread(s, step, u, g, i);
    }
    SameSleepers(s, s', g);
  }

  lemma QuietCalm(s: State, step: Step, u: nat, g: Group)
    requires Calm(s, g) && Enabled(s, step) && Quiet(s, step, u, g) && Actor(step) != u
    ensures Calm(Apply(s, step), g)
  {
    StepInv(s, step);
    QuietOther(s, step, u, g);
    var s' := Apply(s, step);
    forall i: nat | i < |s'.ts| && Member(s'.ts[i].pc, g) ensures Settled(s'.mem, s'.ts[i].pc) {
      assert Unwoken(s, s', g, i);
    }
    NotNilled(s, step);
  }

  lemma NotNilled(s: State, step: Step)
    requires Enabled(s, step) && !s.tab.nilled && !step.Close?
    ensures !Apply(s, step).tab.nilled
  {
  }

  ghost predicate QuietRun(r: Run, u: nat, g: Group) {
    && Linked(r)
    && forall x :: 0 <= x < |r.steps| ==> Quiet(r.ss[x], r.steps[x], u, g)
  }

  // What becomes of the waiters

  /** Still asleep, or woken for good: on the way to returning 0 from the wait `w`, or just returned. */
  predicate Answered(pc: PC, w: Wait) {
    match pc
    case Parked(tk) => tk.w == w
    case Got(tk, v) => tk.w == w && v != w.val
    case GotBit(tk) => tk.w == w
    case Leave(tk, res) => tk.w == w && res == Ok(0)
    case Done(call, res) => call == WaitCall(w) && res == Ok(0)
    case _ => false
  }

  /** Up to state `k` thread `i` has returned 0 from the wait `w`. */
  ghost predicate ReturnedZero(r: Run, k: nat, i: nat, w: Wait) {
    exists x :: 0 <= x <= k && x < |r.ss| && PCOf(r.ss[x], i) == Done(WaitCall(w), Ok(0))
  }

  lemma AnswerKept(s: State, step: Step, u: nat, g: Group, i: nat, w: Wait)
    requires Calm(s, g) && Enabled(s, step) && Calm(Apply(s, step), g) && Quiet(s, step, u, g)
    requires InGroup(w, g) && Answered(PCOf(s, i), w) && !PCOf(s, i).Done?
    ensures Answered(PCOf(Apply(s, step), i), w)
  {
    if Receives(step, i) {
      TwoMove(s, step);
      assert Settled(Apply(s, step).mem, Apply(s, step).ts[i].pc);
    } else if Actor(step) != i {
      OthersStay(s, step, i);
    } else {
      assert Settled(s.mem, s.ts[i].pc);
      OwnAnswer(s, step, u, g, i, w);
    }
  }

  lemma OwnAnswer(s: State, step: Step, u: nat, g: Group, i: nat, w: Wait)
    requires Inv(s) && !s.tab.nilled && Enabled(s, step) && Quiet(s, step, u, g) && Actor(step) == i && InGroup(w, g)
    requires Answered(PCOf(s, i), w) && !PCOf(s, i).Done? && Settled(s.mem, PCOf(s, i))
    ensures Answered(PCOf(Apply(s, step), i), w)
  {
  }

  ghost predicate CalmAt(r: Run, x: nat, g: Group) { x < |r.ss| ==> Calm(r.ss[x], g) }

  lemma AnswerCarries(r: Run, k: nat, u: nat, g: Group, i: nat, w: Wait)
    requires QuietRun(r, u, g) && 0 < k < |r.ss| && CalmAt(r, k - 1, g) && CalmAt(r, k, g)
    requires InGroup(w, g) && Answered(PCOf(r.ss[k - 1], i), w) && !PCOf(r.ss[k - 1], i).Done?
    ensures Answered(PCOf(r.ss[k], i), w)
  {
    var s, step := r.ss[k - 1], r.steps[k - 1];
    assert Enabled(s, step) && r.ss[k] == Apply(s, step) by {
      assert Follows(r, k - 1);
    }
    AnswerKept(s, step, u, g, i, w);
  }

  /** A sleeper of the group is woken only to return 0: in every state it sleeps on, is on its way out, or has returned 0. */
  lemma {:induction false} WokenForGood(r: Run, k: nat, u: nat, g: Group, i: nat, w: Wait)
    requires QuietRun(r, u, g) && k < |r.ss| && forall x :: 0 <= x <= k ==> CalmAt(r, x, g)
    requires PCOf(r.ss[0], i).Parked? && PCOf(r.ss[0], i).tk.w == w && InGroup(w, g)
    ensures ReturnedZero(r, k, i, w) || Answered(PCOf(r.ss[k], i), w)
  {
    if k > 0 {
      WokenForGood(r, k - 1, u, g, i, w);
      if !ReturnedZero(r, k, i, w) {
        assert !ReturnedZero(r, k - 1, i, w) && PCOf(r.ss[k - 1], i) != Done(WaitCall(w), Ok(0));
        assert CalmAt(r, k - 1, g) && CalmAt(r, k, g);
        AnswerCarries(r, k, u, g, i, w);
      }
    }
  }

  /** Every thread that slept in the group at the start of the run sleeps on, is returning 0 or has returned 0. */
  ghost predicate AllAnswered(r: Run, g: Group)
    requires |r.ss| == |r.steps| + 1
  {
    forall i :: 0 <= i < |r.ss[0].ts| && Sleeper(r.ss[0].ts[i].pc, g) ==>
      var w := r.ss[0].ts[i].pc.tk.w;
      ReturnedZero(r, |r.steps|, i, w) || Answered(PCOf(r.ss[|r.steps|], i), w)
  }

  lemma EveryoneAnswered(r: Run, u: nat, g: Group)
    requires QuietRun(r, u, g) && forall x :: 0 <= x < |r.ss| ==> CalmAt(r, x, g)
    ensures AllAnswered(r, g)
  {
    forall i | 0 <= i < |r.ss[0].ts| && Sleeper(r.ss[0].ts[i].pc, g)
      ensures var w := r.ss[0].ts[i].pc.tk.w;
              ReturnedZero(r, |r.steps|, i, w) || Answered(PCOf(r.ss[|r.steps|], i), w)
    {
      WokenForGood(r, |r.steps|, u, g, i, r.ss[0].ts[i].pc.tk.w);
    }
  }

  // FUTEX_WAKE

  /** The call has returned the smaller of `n` and `k` and left the others asleep. */
  predicate Exact(v: i32, n: u32, k: nat, asleep: nat) {
    ToU32(v) == Min(n, k) && asleep == k - Min(n, k)
  }

  ghost predicate AllOn(s: State, a: Addr, c: Chan) {
    forall i :: 0 <= i < |s.ts| && Sleeper(s.ts[i].pc, ByAddr(a)) ==> s.ts[i].pc.tk.ch1 == c
  }

  /** Where a WAKE of `u` on `a` stands, when `k` waiters slept at the address at its start. */
  ghost predicate WakeAt(s: State, u: nat, a: Addr, n: u32, k: nat) {
    var asleep := Total(ParkedIn(ByAddr(a)), s.ts);
    && a in s.mem
    && match PCOf(s, u)
       case Look(b, m) => b == a && m == n && asleep == k
       case Hold(b, m, c) => b == a && m == n && asleep == k && AllOn(s, a, c)
       case Send(b, m, c, v, i) =>
         b == a && m == n && v == s.mem[a] && AllOn(s, a, c) && asleep + ToU32(i) == k
       case Done(call, Ok(v)) => call == WakeCall(a, n) && Exact(v, n, k, asleep)
       case _ => false
  }

  lemma AllOnKept(s: State, s': State, a: Addr)
    requires |s'.ts| == |s.ts| && forall i: nat :: i < |s.ts| ==> Unwoken(s, s', ByAddr(a), i)
    ensures forall c: Chan :: AllOn(s, a, c) ==> AllOn(s', a, c)
  {
    forall i: nat, c: Chan | i < |s.ts| && Sleeper(s'.ts[i].pc, ByAddr(a)) && AllOn(s, a, c) ensures s'.ts[i].pc.tk.ch1 == c {
      assert Unwoken(s, s', ByAddr(a), i);
    }
  }

  lemma WakeAtOther(s: State, step: Step, u: nat, a: Addr, n: u32, k: nat)
    requires Calm(s, ByAddr(a)) && Enabled(s, step) && Quiet(s, step, u, ByAddr(a)) && Actor(step) != u
    requires u < |s.ts| && WakeAt(s, u, a, n, k)
    ensures WakeAt(Apply(s, step), u, a, n, k)
  {
    var s' := Apply(s, step);
    QuietOther(s, step, u, ByAddr(a));
    OthersStay(s, step, u);
    AllOnKept(s, s', a);
    MemQuiet(s, step, u, a);
  }

  lemma MemQuiet(s: State, step: Step, u: nat, a: Addr)
    requires Enabled(s, step) && Quiet(s, step, u, ByAddr(a))
    ensures Agree(s.mem, Apply(s, step).mem, a)
  {
  }

  /** When nobody of the group sleeps on the channel, nobody of the group sleeps. */
  lemma NoSleeper(s: State, g: Group)
    requires forall i :: 0 <= i < |s.ts| ==> !Sleeper(s.ts[i].pc, g)
    ensures Total(ParkedIn(g), s.ts) == 0
  {
    TotalZero(ParkedIn(g), s.ts);
  }

  /** Only thread `u` moves, and it is no waiter. */
  predicate OnlyMoves(s: State, s': State, u: nat) {
    && u < |s.ts| == |s'.ts|
    && s' == s.(ts := s.ts[u := s'.ts[u]])
    && !Registered(s.ts[u].pc) && !Registered(s'.ts[u].pc)
  }

  lemma WordMoves(s: State, step: Step, u: nat)
    requires Enabled(s, step) && Actor(step) == u && (step.Lookup? || step.ReadWord? || step.SendNone?)
    ensures OnlyMoves(s, Apply(s, step), u)
  {
  }

  lemma BitsMoves(s: State, step: Step, u: nat)
    requires Enabled(s, step) && Actor(step) == u
    requires step.ReadLock? || step.Bucket? || step.PumpNone? || step.Unlock?
    ensures OnlyMoves(s, Apply(s, step), u)
  {
  }

  /** A step of `u` itself that wakes nobody. */
  lemma OwnNoWake(s: State, s': State, u: nat, g: Group)
    requires Calm(s, g) && OnlyMoves(s, s', u) && Inv(s')
    ensures Calm(s', g) && Total(ParkedIn(g), s'.ts) == Total(ParkedIn(g), s.ts)
  {
    TotalUpdate(ParkedIn(g), s.ts, u, s'.ts[u]);
    forall i | 0 <= i < |s'.ts| && Member(s'.ts[i].pc, g) ensures Settled(s'.mem, s'.ts[i].pc) {
      assert s'.ts[i] == s.ts[i];
    }
  }

  lemma WakeAtOwn(s: State, step: Step, u: nat, a: Addr, n: u32, k: nat)
    requires Calm(s, ByAddr(a)) && Enabled(s, step) && Actor(step) == u && u < |s.ts| && WakeAt(s, u, a, n, k)
    requires step.Lookup? || step.ReadWord? || step.SendNone?
    ensures WakeAt(Apply(s, step), u, a, n, k) && Calm(Apply(s, step), ByAddr(a))
  {
    var g, pc := ByAddr(a), PCOf(s, u);
    StepInv(s, step);
    WordMoves(s, step, u);
    OwnNoWake(s, Apply(s, step), u, g);
    assert ThreadOk(s.tab, s.closed, s.ts[u]);
    forall i | 0 <= i < |s.ts| && Sleeper(s.ts[i].pc, g) ensures Stores(s.tab, AtAddr(a), s.ts[i].pc.tk.ch1) {
      assert ThreadOk(s.tab, s.closed, s.ts[i]);
    }
    match step
    case Lookup(_) =>
      if a !in s.tab.awaits {
        NoSleeper(s, g);
      }
    case ReadWord(_) =>
    case SendNone(_) =>
      IncCounts(pc.i, n);
      if pc.i != ToI32(n) {
        forall i | 0 <= i < |s.ts| ensures !Sleeper(s.ts[i].pc, g) {
          assert !WordReceiver(s.ts[i].pc, pc.ch);
        }
        NoSleeper(s, g);
      }
  }

  lemma Woken(s: State, s': State, u: nat, r: nat, g: Group)
    requires Calm(s, g) && Inv(s') && u < |s.ts| == |s'.ts| && r < |s.ts| && u != r
    requires s' == s.(ts := s.ts[u := s'.ts[u]][r := s'.ts[r]])
    requires !Registered(s.ts[u].pc) && !Registered(s'.ts[u].pc)
    requires Sleeper(s.ts[r].pc, g)
    requires var q := s'.ts[r].pc; !q.Parked? && (Member(q, g) ==> Settled(s.mem, q))
    ensures Calm(s', g) && Total(ParkedIn(g), s'.ts) + 1 == Total(ParkedIn(g), s.ts)
  {
    TotalUpdate(ParkedIn(g), s.ts, u, s'.ts[u]);
    TotalUpdate(ParkedIn(g), s.ts[u := s'.ts[u]], r, s'.ts[r]);
    forall i | 0 <= i < |s'.ts| && Member(s'.ts[i].pc, g) ensures Settled(s'.mem, s'.ts[i].pc) {
      if i != r {
        assert s'.ts[i] == s.ts[i];
      }
    }
  }

  /** Thread `u` wakes the sleeper `r`, which will leave. */
  lemma OwnWake(s: State, step: Step, u: nat, g: Group)
    requires Calm(s, g) && Enabled(s, step) && Actor(step) == u && (step.SendTo? || step.PumpTo?)
    requires Sleeper(PCOf(s, step.r), g)
    requires step.SendTo? ==> PCOf(s, u).v != PCOf(s, step.r).tk.w.val
    ensures var s' := Apply(s, step);
            && Calm(s', g) && s'.mem == s.mem && |s'.ts| == |s.ts| && s'.tab == s.tab
            && (forall i :: 0 <= i < |s.ts| && i != u && i != step.r ==> s'.ts[i] == s.ts[i])
            && !Sleeper(s'.ts[u].pc, g) && !Sleeper(s'.ts[step.r].pc, g)
            && Total(ParkedIn(g), s'.ts) + 1 == Total(ParkedIn(g), s.ts)
  {
    StepInv(s, step);
    TwoMove(s, step);
    Woken(s, Apply(s, step), u, step.r, g);
  }

  lemma WakeAtSend(s: State, step: Step, u: nat, a: Addr, n: u32, k: nat)
    requires Calm(s, ByAddr(a)) && Enabled(s, step) && step.SendTo? && step.t == u && WakeAt(s, u, a, n, k)
    ensures WakeAt(Apply(s, step), u, a, n, k) && Calm(Apply(s, step), ByAddr(a))
  {
    var g, pc := ByAddr(a), PCOf(s, u);
    assert ThreadOk(s.tab, s.closed, s.ts[u]) && ThreadOk(s.tab, s.closed, s.ts[step.r]);
    IncCounts(pc.i, n);
    assert Settled(s.mem, s.ts[step.r].pc);
    OwnWake(s, step, u, g);
  }

  /** One quiet step. */
  lemma WakeAtStep(s: State, step: Step, u: nat, a: Addr, n: u32, k: nat)
    requires Calm(s, ByAddr(a)) && Enabled(s, step) && Quiet(s, step, u, ByAddr(a))
    requires u < |s.ts| && WakeAt(s, u, a, n, k)
    ensures var s' := Apply(s, step); Calm(s', ByAddr(a)) && WakeAt(s', u, a, n, k) && |s'.ts| == |s.ts|
  {
    if Actor(step) != u {
      WakeAtOther(s, step, u, a, n, k);
      QuietCalm(s, step, u, ByAddr(a));
      QuietOther(s, step, u, ByAddr(a));
    } else if step.SendTo? {
      WakeAtSend(s, step, u, a, n, k);
    } else {
      WakeAtOwn(s, step, u, a, n, k);
    }
  }

  lemma {:induction false} WakeAtRun(r: Run, x: nat, u: nat, a: Addr, n: u32, k: nat)
    requires QuietRun(r, u, ByAddr(a)) && x < |r.ss|
    requires Calm(r.ss[0], ByAddr(a)) && u < |r.ss[0].ts| && WakeAt(r.ss[0], u, a, n, k)
    ensures Calm(r.ss[x], ByAddr(a)) && u < |r.ss[x].ts| && WakeAt(r.ss[x], u, a, n, k)
  {
    if x > 0 {
      WakeAtRun(r, x - 1, u, a, n, k);
      assert Follows(r, x - 1);
      WakeAtStep(r.ss[x - 1], r.steps[x - 1], u, a, n, k);
    }
  }

  lemma WakeFromLook(r: Run, u: nat, a: Addr, n: u32)
    requires QuietRun(r, u, ByAddr(a)) && Calm(r.ss[0], ByAddr(a))
    requires PCOf(r.ss[0], u) == Look(a, n) && a in r.ss[0].mem
    requires PCOf(r.ss[|r.steps|], u).Done?
    ensures var k := Total(ParkedIn(ByAddr(a)), r.ss[0].ts);
            var z := r.ss[|r.steps|];
            && PCOf(z, u) == Done(WakeCall(a, n), Ok(ToI32(Min(n, k))))
            && Total(ParkedIn(ByAddr(a)), z.ts) == k - Min(n, k)
    ensures AllAnswered(r, ByAddr(a))
  {
    var k := Total(ParkedIn(ByAddr(a)), r.ss[0].ts);
    forall x | 0 <= x < |r.ss| ensures CalmAt(r, x, ByAddr(a)) {
      WakeAtRun(r, x, u, a, n, k);
    }
    EveryoneAnswered(r, u, ByAddr(a));
    WakeAtRun(r, |r.steps|, u, a, n, k);
    WakeAtEnd(r.ss[|r.steps|], u, a, n, k);
  }

  lemma WakeAtEnd(z: State, u: nat, a: Addr, n: u32, k: nat)
    requires WakeAt(z, u, a, n, k) && PCOf(z, u).Done?
    ensures PCOf(z, u) == Done(WakeCall(a, n), Ok(ToI32(Min(n, k)))) && Total(ParkedIn(ByAddr(a)), z.ts) == k - Min(n, k)
  {
    SignedBack(PCOf(z, u).res.v);
  }

  lemma SignedBack(v: i32)
    ensures ToI32(ToU32(v)) == v
  {
  }

  // FUTEX_WAKE_BITSET

  /** All sleepers whose mask meets `m` are in the given buckets. */
  ghost predicate AllIn(s: State, m: Mask, buckets: set<Mask>) {
    forall i :: 0 <= i < |s.ts| && Sleeper(s.ts[i].pc, ByMask(m)) ==> s.ts[i].pc.tk.w.kind.mask in buckets
  }

  /** Where a WAKE_BITSET of `u` with mask `m` stands, when `k` sleepers met the mask at its start. */
  ghost predicate BitsAt(s: State, u: nat, m: Mask, n: u32, k: nat) {
    var asleep := Total(ParkedIn(ByMask(m)), s.ts);
    match PCOf(s, u)
    case Lock(b, x) => b == m && x == n && asleep == k
    case Scan(b, x, i, todo) => b == m && x == n && asleep + ToU32(i) == k && AllIn(s, m, todo)
    case Pump(b, x, i, todo, bucket) => b == m && x == n && asleep + ToU32(i) == k && AllIn(s, m, todo + {bucket})
    case Done(call, Ok(v)) => call == WakeBitsCall(m, n) && Exact(v, n, k, asleep)
    case _ => false
  }

  lemma AllInKept(s: State, s': State, m: Mask, bs: set<Mask>)
    requires |s'.ts| == |s.ts| && forall i: nat :: i < |s.ts| ==> Unwoken(s, s', ByMask(m), i)
    requires AllIn(s, m, bs)
    ensures AllIn(s', m, bs)
  {
    forall i: nat | i < |s.ts| && Sleeper(s'.ts[i].pc, ByMask(m)) ensures s'.ts[i].pc.tk.w.kind.mask in bs {
      assert Unwoken(s, s', ByMask(m), i);
    }
  }

  /** Nothing that the call relies on has changed. */
  lemma BitsAtKept(s: State, s': State, u: nat, m: Mask, n: u32, k: nat)
    requires BitsAt(s, u, m, n, k) && PCOf(s', u) == PCOf(s, u)
    requires |s'.ts| == |s.ts| && forall i: nat :: i < |s.ts| ==> Unwoken(s, s', ByMask(m), i)
    requires Total(ParkedIn(ByMask(m)), s'.ts) == Total(ParkedIn(ByMask(m)), s.ts)
    ensures BitsAt(s', u, m, n, k)
  {
    match PCOf(s, u)
    case Scan(_, _, _, todo) => AllInKept(s, s', m, todo);
    case Pump(_, _, _, todo, b) => AllInKept(s, s', m, todo + {b});
    case _ =>
  }

  lemma BitsAtOther(s: State, step: Step, u: nat, m: Mask, n: u32, k: nat)
    requires Calm(s, ByMask(m)) && Enabled(s, step) && Quiet(s, step, u, ByMask(m)) && Actor(step) != u
    requires u < |s.ts| && BitsAt(s, u, m, n, k)
    ensures BitsAt(Apply(s, step), u, m, n, k)
  {
    QuietOther(s, step, u, ByMask(m));
    assert !Registered(PCOf(s, u));
    OthersStay(s, step, u);
    BitsAtKept(s, Apply(s, step), u, m, n, k);
  }

  /** A sleeper that meets the mask is registered in the bucket of its own mask. */
  lemma SleeperBucket(s: State, m: Mask, i: nat)
    requires Calm(s, ByMask(m)) && i < |s.ts| && Sleeper(s.ts[i].pc, ByMask(m))
    ensures Stores(s.tab, AtMask(s.ts[i].pc.tk.w.kind.mask), s.ts[i].pc.tk.ch2)
    ensures Meets(s.ts[i].pc.tk.w.kind.mask, m)
  {
    MeetsBits(s.ts[i].pc.tk.w.kind.mask, m);
  }

  lemma BitsAtLock(s: State, u: nat, m: Mask, n: u32, k: nat)
    requires Calm(s, ByMask(m)) && Enabled(s, ReadLock(u)) && BitsAt(s, u, m, n, k)
    requires Total(ParkedIn(ByMask(m)), Apply(s, ReadLock(u)).ts) == Total(ParkedIn(ByMask(m)), s.ts)
    ensures BitsAt(Apply(s, ReadLock(u)), u, m, n, k)
  {
  }

  lemma BitsAtBucket(s: State, b: Mask, u: nat, m: Mask, n: u32, k: nat)
    requires Calm(s, ByMask(m)) && Enabled(s, Bucket(u, b)) && BitsAt(s, u, m, n, k)
    requires Total(ParkedIn(ByMask(m)), Apply(s, Bucket(u, b)).ts) == Total(ParkedIn(ByMask(m)), s.ts)
    ensures BitsAt(Apply(s, Bucket(u, b)), u, m, n, k)
  {
    var todo := PCOf(s, u).todo;
    if Meets(b, m) {
      assert todo - {b} + {b} == todo;
    } else {
      forall i: nat | i < |s.ts| && Sleeper(s.ts[i].pc, ByMask(m)) ensures s.ts[i].pc.tk.w.kind.mask in todo - {b} {
        SleeperBucket(s, m, i);
      }
    }
  }

  lemma BitsAtExit(s: State, step: Step, u: nat, m: Mask, n: u32, k: nat)
    requires Calm(s, ByMask(m)) && Enabled(s, step) && Actor(step) == u && u < |s.ts| && BitsAt(s, u, m, n, k)
    requires step.PumpNone? || step.Unlock?
    requires Total(ParkedIn(ByMask(m)), Apply(s, step).ts) == Total(ParkedIn(ByMask(m)), s.ts)
    requires OnlyMoves(s, Apply(s, step), u)
    ensures BitsAt(Apply(s, step), u, m, n, k)
  {
    var g, pc := ByMask(m), PCOf(s, u);
    assert ThreadOk(s.tab, s.closed, s.ts[u]);
    IncCounts(pc.i, n);
    if step.Unlock? {
      NoSleeper(s, g);
    } else if pc.i != ToI32(n) {
      forall i: nat | i < |s.ts| && Sleeper(s.ts[i].pc, g) ensures s.ts[i].pc.tk.w.kind.mask in pc.todo {
        SleeperBucket(s, m, i);
        assert !BitReceiver(s.ts[i].pc, s.tab.bits[pc.b].ch);
      }
    }
  }

  lemma BitsAtOwn(s: State, step: Step, u: nat, m: Mask, n: u32, k: nat)
    requires Calm(s, ByMask(m)) && Enabled(s, step) && Actor(step) == u && u < |s.ts| && BitsAt(s, u, m, n, k)
    requires step.ReadLock? || step.Bucket? || step.PumpNone? || step.Unlock?
    ensures BitsAt(Apply(s, step), u, m, n, k) && Calm(Apply(s, step), ByMask(m))
  {
    StepInv(s, step);
    BitsMoves(s, step, u);
    OwnNoWake(s, Apply(s, step), u, ByMask(m));
    if step.ReadLock? {
      BitsAtLock(s, u, m, n, k);
    } else if step.Bucket? {
      BitsAtBucket(s, step.b, u, m, n, k);
    } else {
      BitsAtExit(s, step, u, m, n, k);
    }
  }

  lemma BitsAtPump(s: State, step: Step, u: nat, m: Mask, n: u32, k: nat)
    requires Calm(s, ByMask(m)) && Enabled(s, step) && step.PumpTo? && step.t == u && BitsAt(s, u, m, n, k)
    ensures BitsAt(Apply(s, step), u, m, n, k) && Calm(Apply(s, step), ByMask(m))
  {
    var pc := PCOf(s, u);
    assert ThreadOk(s.tab, s.closed, s.ts[u]) && ThreadOk(s.tab, s.closed, s.ts[step.r]);
    IncCounts(pc.i, n);
    MeetsBits(pc.b, m);
    OwnWake(s, step, u, ByMask(m));
  }

  lemma BitsAtStep(s: State, step: Step, u: nat, m: Mask, n: u32, k: nat)
    requires Calm(s, ByMask(m)) && Enabled(s, step) && Quiet(s, step, u, ByMask(m))
    requires u < |s.ts| && BitsAt(s, u, m, n, k)
    ensures var s' := Apply(s, step); Calm(s', ByMask(m)) && BitsAt(s', u, m, n, k) && |s'.ts| == |s.ts|
  {
    if Actor(step) != u {
      BitsAtOther(s, step, u, m, n, k);
      QuietCalm(s, step, u, ByMask(m));
      QuietOther(s, step, u, ByMask(m));
    } else if step.PumpTo? {
      BitsAtPump(s, step, u, m, n, k);
    } else {
      BitsAtOwn(s, step, u, m, n, k);
    }
  }

  lemma {:induction false} BitsAtRun(r: Run, x: nat, u: nat, m: Mask, n: u32, k: nat)
    requires QuietRun(r, u, ByMask(m)) && x < |r.ss|
    requires Calm(r.ss[0], ByMask(m)) && u < |r.ss[0].ts| && BitsAt(r.ss[0], u, m, n, k)
    ensures Calm(r.ss[x], ByMask(m)) && u < |r.ss[x].ts| && BitsAt(r.ss[x], u, m, n, k)
  {
    if x > 0 {
      BitsAtRun(r, x - 1, u, m, n, k);
      assert Follows(r, x - 1);
      BitsAtStep(r.ss[x - 1], r.steps[x - 1], u, m, n, k);
    }
  }

  lemma WakeFromLock(r: Run, u: nat, m: Mask, n: u32)
    requires QuietRun(r, u, ByMask(m)) && Calm(r.ss[0], ByMask(m))
    requires PCOf(r.ss[0], u) == Lock(m, n)
    requires PCOf(r.ss[|r.steps|], u).Done?
    ensures var k := Total(ParkedIn(ByMask(m)), r.ss[0].ts);
            var z := r.ss[|r.steps|];
            && PCOf(z, u) == Done(WakeBitsCall(m, n), Ok(ToI32(Min(n, k))))
            && Total(ParkedIn(ByMask(m)), z.ts) == k - Min(n, k)
    ensures AllAnswered(r, ByMask(m))
  {
    var k := Total(ParkedIn(ByMask(m)), r.ss[0].ts);
    forall x | 0 <= x < |r.ss| ensures CalmAt(r, x, ByMask(m)) {
      BitsAtRun(r, x, u, m, n, k);
    }
    EveryoneAnswered(r, u, ByMask(m));
    BitsAtRun(r, |r.steps|, u, m, n, k);
    BitsAtEnd(r.ss[|r.steps|], u, m, n, k);
  }

  lemma BitsAtEnd(z: State, u: nat, m: Mask, n: u32, k: nat)
    requires BitsAt(z, u, m, n, k) && PCOf(z, u).Done?
    ensures PCOf(z, u) == Done(WakeBitsCall(m, n), Ok(ToI32(Min(n, k)))) && Total(ParkedIn(ByMask(m)), z.ts) == k - Min(n, k)
  {
    SignedBack(PCOf(z, u).res.v);
  }

  // From the call to its return

  /** A run of which the first step is the call `c` of thread `u`, and the others are quiet. */
  ghost predicate QuietCall(r: Run, u: nat, c: Call, g: Group) {
    && Linked(r) && r.steps != [] && r.steps[0] == Begin(u, c)
    && forall x :: 1 <= x < |r.steps| ==> Quiet(r.ss[x], r.steps[x], u, g)
  }

  /** The run after its first step. */
  lemma RunTail(r: Run, u: nat, c: Call, g: Group) returns (r': Run)
    requires QuietCall(r, u, c, g)
    ensures r' == Run(r.ss[1..], r.steps[1..]) && QuietRun(r', u, g)
    ensures r'.ss[0] == r.ss[1] && r'.ss[|r'.steps|] == r.ss[|r.steps|]
  {
    r' := Run(r.ss[1..], r.steps[1..]);
    forall i: nat ensures Follows(r', i) {
      assert Follows(r, i + 1);
    }
  }

  /** Beginning a wake moves no waiter. */
  lemma BeginMoves(s: State, u: nat, c: Call, g: Group)
    requires Calm(s, g) && Enabled(s, Begin(u, c)) && !c.WaitCall?
    ensures var s' := Apply(s, Begin(u, c));
            Calm(s', g) && OnlyMoves(s, s', u) && Total(ParkedIn(g), s'.ts) == Total(ParkedIn(g), s.ts)
  {
    StepInv(s, Begin(u, c));
    OwnNoWake(s, Apply(s, Begin(u, c)), u, g);
  }

  lemma AnsweredSince(r: Run, r': Run, u: nat, g: Group)
    requires |r.ss| == |r.steps| + 1 && r.steps != [] && r' == Run(r.ss[1..], r.steps[1..]) && AllAnswered(r', g)
    requires OnlyMoves(r.ss[0], r.ss[1], u)
    ensures AllAnswered(r, g)
  {
    forall i | 0 <= i < |r.ss[0].ts| && Sleeper(r.ss[0].ts[i].pc, g)
      ensures var w := r.ss[0].ts[i].pc.tk.w;
              ReturnedZero(r, |r.steps|, i, w) || Answered(PCOf(r.ss[|r.steps|], i), w)
    {
      var w := r.ss[0].ts[i].pc.tk.w;
      assert r'.ss[0].ts[i] == r.ss[0].ts[i];
      if ReturnedZero(r', |r'.steps|, i, w) {
        var x :| 0 <= x <= |r'.steps| && x < |r'.ss| && PCOf(r'.ss[x], i) == Done(WaitCall(w), Ok(0));
        assert PCOf(r.ss[x + 1], i) == Done(WaitCall(w), Ok(0));
      }
    }
  }

  /**
   With `k` settled waiters asleep at a readable address, futex(a, FUTEX_WAKE, n) that runs quietly returns
   min(n, k) and leaves exactly k - min(n, k) asleep, in every interleaving. Those it woke return 0.
   */
  lemma WakeExact(r: Run, u: nat, a: Addr, n: u32)
    requires QuietCall(r, u, WakeCall(a, n), ByAddr(a)) && Calm(r.ss[0], ByAddr(a)) && a in r.ss[0].mem
    requires PCOf(r.ss[|r.steps|], u).Done?
    ensures var k := Total(ParkedIn(ByAddr(a)), r.ss[0].ts);
            var z := r.ss[|r.steps|];
            && PCOf(z, u) == Done(WakeCall(a, n), Ok(ToI32(Min(n, k))))
            && Total(ParkedIn(ByAddr(a)), z.ts) == k - Min(n, k)
    ensures AllAnswered(r, ByAddr(a))
  {
    var r' := RunTail(r, u, WakeCall(a, n), ByAddr(a));
    assert Follows(r, 0);
    BeginMoves(r.ss[0], u, WakeCall(a, n), ByAddr(a));
    WakeFromLook(r', u, a, n);
    AnsweredSince(r, r', u, ByAddr(a));
  }

  /**
   With `k` settled bitset waiters asleep whose masks have a bit in common with `m`, a WAKE_BITSET(n, m) that
   runs quietly returns min(n, k) and leaves exactly k - min(n, k) of them asleep, for every order in which the
   buckets are visited and in every interleaving. Those it woke return 0.
   */
  lemma WakeBitsExact(r: Run, u: nat, m: Mask, n: u32)
    requires QuietCall(r, u, WakeBitsCall(m, n), ByMask(m)) && Calm(r.ss[0], ByMask(m))
    requires PCOf(r.ss[|r.steps|], u).Done?
    ensures var k := Total(ParkedIn(ByMask(m)), r.ss[0].ts);
            var z := r.ss[|r.steps|];
            && PCOf(z, u) == Done(WakeBitsCall(m, n), Ok(ToI32(Min(n, k))))
            && Total(ParkedIn(ByMask(m)), z.ts) == k - Min(n, k)
    ensures AllAnswered(r, ByMask(m))
  {
    var r' := RunTail(r, u, WakeBitsCall(m, n), ByMask(m));
    assert Follows(r, 0);
    BeginMoves(r.ss[0], u, WakeBitsCall(m, n), ByMask(m));
    WakeFromLock(r', u, m, n);
    AnsweredSince(r, r', u, ByMask(m));
  }
}
