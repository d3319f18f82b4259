/** Which waiters a WAKE is sure to reach, and how a wake-up is lost. */
module FutexReach {
  import opened Machine
  import opened FutexTable
  import opened FutexProtocol
  import opened FutexInvariant
  import opened FutexRuns
  import opened FutexSafety
  import opened FutexQuiet

  // Two ways to lose a wake-up

  /** A wait for word 0 to differ from 0. */
  function WaitAtZero(timed: bool): Wait { Wait(0, 0, Plain, timed) }

  /** Thread `t` sleeps at word 0, which already differs from its `val`, and the WAKE of `u` has returned 0. */
  predicate Missed(z: State, t: nat, u: nat) {
    && PCOf(z, t).Parked? && PCOf(z, t).tk.w == WaitAtZero(false)
    && 0 in z.mem && z.mem[0] != PCOf(z, t).tk.w.val
    && PCOf(z, u) == Done(WakeCall(0, 1), Ok(0))
  }

  /** A thread has read its word as 0 and is about to register, and the word becomes 1. */
  lemma LateArrival() returns (r: Run)
    ensures IsRun(r)
    ensures r.ss[|r.steps|] == State(EMPTY, {}, map[0 := 1], [IDLE.(pc := Enter(WaitAtZero(false))), IDLE], false)
  {
    r := Run([State(EMPTY, {}, map[0 := 0], [IDLE, IDLE], false)], []);
    r := Extend(r, Begin(0, WaitCall(WaitAtZero(false))));
    r := Extend(r, CheckWord(0));
    r := Extend(r, Store(map[0 := 1]));
  }

  /**
   A wake-up can be lost: the word is read before the waiter registers. In this run the word is changed and
   woken for in between, the WAKE finds nobody and returns 0, and the waiter parks on a word that already differs.
   */
  lemma LostWakeup() returns (r: Run)
    ensures IsRun(r) && Missed(r.ss[|r.steps|], 0, 1)
  {
    r := LateArrival();
    r := Extend(r, Begin(1, WakeCall(0, 1)));
    r := Extend(r, Lookup(1));
    r := Extend(r, Register(0));
    r := Extend(r, Park(0));
  }

  /** A waiter has registered. */
  lemma Listed() returns (r: Run)
    ensures IsRun(r)
    ensures r.ss[|r.steps|] ==
              State(Tables(map[0 := Entry(0, 1)], map[], [AtAddr(0)], false), {}, map[0 := 0],
                    [IDLE.(pc := Select(Ticket(WaitAtZero(true), 0, 0))), IDLE, IDLE], false)
  {
    r := Run([State(EMPTY, {}, map[0 := 0], [IDLE, IDLE, IDLE], false)], []);
    r := Extend(r, Begin(0, WaitCall(WaitAtZero(true))));
    r := Extend(r, CheckWord(0));
    r := Extend(r, Register(0));
  }

  /** A WAKE has looked up its channel. */
  lemma HeldChannel() returns (r: Run)
    ensures IsRun(r)
    ensures r.ss[|r.steps|] ==
              State(Tables(map[0 := Entry(0, 1)], map[], [AtAddr(0)], false), {}, map[0 := 0],
                    [IDLE.(pc := Select(Ticket(WaitAtZero(true), 0, 0))), IDLE, IDLE.(pc := Hold(0, 1, 0))], false)
  {
    r := Listed();
    r := Extend(r, Begin(2, WakeCall(0, 1)));
    r := Extend(r, Lookup(2));
  }

  /** The waiter times out and takes its entry away with it. */
  lemma StaleHold() returns (r: Run)
    ensures IsRun(r)
    ensures r.ss[|r.steps|] ==
              State(Tables(map[], map[], [AtAddr(0)], false), {}, map[0 := 0],
                    [IDLE.(pc := Done(WaitCall(WaitAtZero(true)), Fail(ETIMEDOUT))), IDLE, IDLE.(pc := Hold(0, 1, 0))], false)
  {
    r := HeldChannel();
    r := Extend(r, Timeout(0));
    r := Extend(r, Deregister(0));
  }

  /** The next waiter is given a new channel. */
  lemma NewChannel() returns (r: Run)
    ensures IsRun(r)
    ensures r.ss[|r.steps|] ==
              State(Tables(map[0 := Entry(1, 1)], map[], [AtAddr(0), AtAddr(0)], false), {}, map[0 := 0],
                    [IDLE.(pc := Done(WaitCall(WaitAtZero(true)), Fail(ETIMEDOUT))),
                     IDLE.(pc := Select(Ticket(WaitAtZero(false), 1, 1))), IDLE.(pc := Hold(0, 1, 0))], false)
  {
    r := StaleHold();
    r := Extend(r, Begin(1, WaitCall(WaitAtZero(false))));
    r := Extend(r, CheckWord(1));
    r := Extend(r, Register(1));
  }

  /** It parks, and the word changes. */
  lemma ParkedAnew() returns (r: Run)
    ensures IsRun(r)
    ensures r.ss[|r.steps|] ==
              State(Tables(map[0 := Entry(1, 1)], map[], [AtAddr(0), AtAddr(0)], false), {}, map[0 := 1],
                    [IDLE.(pc := Done(WaitCall(WaitAtZero(true)), Fail(ETIMEDOUT))),
                     Thread(Parked(Ticket(WaitAtZero(false), 1, 1)), Account(0, 0, 0, 0, 1)), IDLE.(pc := Hold(0, 1, 0))], false)
  {
    r := NewChannel();
    r := Extend(r, Park(1));
    r := Extend(r, Store(map[0 := 1]));
  }

  /**
   The other way to lose one: the WAKE holds a channel whose entry is gone. The next waiter gets a new channel
   and is parked on it before the word is even changed, yet the send on the old channel finds nobody.
   */
  lemma StaleLoss() returns (r: Run)
    ensures IsRun(r) && Missed(r.ss[|r.steps|], 1, 2)
    ensures exists k: nat :: k < |r.steps| && PCOf(r.ss[k], 1).Parked? && r.steps[k] == ReadWord(2)
  {
    r := ParkedAnew();
    var k := |r.steps|;
    r := Extend(r, ReadWord(2));
    r := Extend(r, SendNone(2));
    assert PCOf(r.ss[k], 1).Parked? && r.steps[k] == ReadWord(2);
  }

  // The waiters that a WAKE is sure to reach

  /**
   Steps that leave the WAKE of `u` on `a` and the waiter `t` to each other: no further wait on `a` gets past
   its check, `t` does not time out, nobody but `u` delivers to `t`, the word keeps its value, no Close.
   */
  ghost predicate Steady(s: State, step: Step, u: nat, t: nat, a: Addr) {
    match step
    case Begin(x, _) => x != u
    case CheckWord(x) =>
      PCOf(s, x).Check? && PCOf(s, x).w.addr == a && a in s.mem ==> s.mem[a] != PCOf(s, x).w.val
    case Timeout(x) => x != t
    case SendTo(x, y) => x == u || y != t
    case PumpTo(_, y) => y != t
    case Store(m) => Agree(s.mem, m, a)
    case Close => false
    case _ => true
  }

  /** A steady continuation of `s`. */
  ghost predicate SteadyRun(r: Run, s: State, u: nat, t: nat, a: Addr) {
    && Linked(r) && r.ss[0] == s
    && forall x :: 0 <= x < |r.steps| ==> Steady(r.ss[x], r.steps[x], u, t, a)
  }

  /** A steady continuation in which the call of `u` returns. */
  ghost predicate Completes(r: Run, s: State, u: nat, t: nat, a: Addr) {
    SteadyRun(r, s, u, t, a) && PCOf(r.ss[|r.steps|], u).Done?
  }

  /** Among the first `k` steps `u` delivers to `t`. */
  predicate Reaches(r: Run, k: nat, u: nat, t: nat) {
    k <= |r.steps| && exists x :: 0 <= x < k && r.steps[x] == SendTo(u, t)
  }

  /** No waiter other than `t` takes more than one delivery: each leaves on the present word. */
  ghost predicate NoRepeats(s: State, t: nat, a: Addr) {
    a in s.mem && forall x :: 0 <= x < |s.ts| && x != t ==> !Repeats(s.ts[x].pc, a, s.mem[a])
  }

  /** A wait that goes back to sleep each time it is woken for `word`. */
  predicate Repeats(pc: PC, a: Addr, word: u32) {
    CanTake(pc, a, word) && (if pc.Enter? then pc.w.val else pc.tk.w.val) == word
  }

  predicate ParkedAt(pc: PC, a: Addr) { pc.Parked? && pc.tk.w.addr == a }

  /** What can be read off at the call: `t` sleeps at the address, and `n` covers everybody who can take a delivery. */
  ghost predicate Sure(s: State, t: nat, a: Addr, n: u32) {
    ParkedAt(PCOf(s, t), a) && NoRepeats(s, t, a) && Total(Takers(a, s.mem[a]), s.ts) <= n
  }

  /** Where the WAKE of `u` stands as long as it has not reached `t`. */
  ghost predicate Heading(s: State, u: nat, t: nat, a: Addr, n: u32) {
    && Inv(s) && !s.tab.nilled && t < |s.ts| && u < |s.ts|
    && ParkedAt(PCOf(s, t), a) && NoRepeats(s, t, a)
    && var takers := Total(Takers(a, s.mem[a]), s.ts);
       match PCOf(s, u)
       case Look(b, m) => b == a && m == n && takers <= n
       case Hold(b, m, c) => b == a && m == n && takers <= n && c == PCOf(s, t).tk.ch1
       case Send(b, m, c, v, i) =>
         b == a && m == n && takers + ToU32(i) <= n && c == PCOf(s, t).tk.ch1 && v == s.mem[a]
       case _ => false
  }

  /** What a steady step of another thread does to thread `x`. */
  predicate Weaker(p: PC, q: PC, a: Addr, word: u32) {
    && (CanTake(q, a, word) ==> CanTake(p, a, word))
    && (Repeats(q, a, word) ==> Repeats(p, a, word))
  }

  lemma SteadyReceiver(s: State, step: Step, a: Addr, x: nat)
    requires a in s.mem && Enabled(s, step) && Receives(step, x)
    ensures Weaker(PCOf(s, x), PCOf(Apply(s, step), x), a, s.mem[a])
  {
    TwoMove(s, step);
  }

  /** The steps after which a thread can take a delivery again, or for the first time. */
  predicate Inward(step: Step) {
    step.CheckWord? || step.Register? || step.Park? || step.Resume? || step.Reread?
  }

  lemma SteadyInward(s: State, step: Step, u: nat, t: nat, a: Addr, x: nat)
    requires a in s.mem && Enabled(s, step) && Steady(s, step, u, t, a) && Inward(step) && step.t == x
    ensures Weaker(PCOf(s, x), PCOf(Apply(s, step), x), a, s.mem[a])
  {
  }

  /** Every other step of a thread ends where no delivery can be taken; a panic moves nobody. */
  lemma SteadyOutward(s: State, step: Step, a: Addr, word: u32, x: nat)
    requires Inv(s) && !s.tab.nilled && Enabled(s, step) && !Inward(step) && Actor(step) == x
    ensures !CanTake(PCOf(Apply(s, step), x), a, word) || PCOf(Apply(s, step), x) == PCOf(s, x)
  {
    if step.SendTo? || step.PumpTo? {
      TwoMove(s, step);
    } else {
      WakerOutward(s, step, a, word, x);
    }
  }

  lemma WakerOutward(s: State, step: Step, a: Addr, word: u32, x: nat)
    requires Inv(s) && !s.tab.nilled && Enabled(s, step) && !Inward(step) && Actor(step) == x
    requires !step.SendTo? && !step.PumpTo?
    ensures !CanTake(PCOf(Apply(s, step), x), a, word) || PCOf(Apply(s, step), x) == PCOf(s, x)
  {
  }

  lemma SteadyThread(s: State, step: Step, u: nat, t: nat, a: Addr, x: nat)
    requires Inv(s) && !s.tab.nilled && a in s.mem && Enabled(s, step) && Steady(s, step, u, t, a)
    ensures Weaker(PCOf(s, x), PCOf(Apply(s, step), x), a, s.mem[a])
  {
    if Receives(step, x) {
      SteadyReceiver(s, step, a, x);
    } else if Actor(step) != x {
      OthersStay(s, step, x);
    } else if Inward(step) {
      SteadyInward(s, step, u, t, a, x);
    } else {
      SteadyOutward(s, step, a, s.mem[a], x);
    }
  }

  lemma {:induction false} FewerTakers(a: Addr, word: u32, ts: seq<Thread>, ts': seq<Thread>)
    requires |ts| == |ts'| && forall x :: 0 <= x < |ts| ==> Weaker(ts[x].pc, ts'[x].pc, a, word)
    ensures Total(Takers(a, word), ts') <= Total(Takers(a, word), ts)
  {
    if ts != [] {
      assert Weaker(ts[0].pc, ts'[0].pc, a, word);
      FewerTakers(a, word, ts[1..], ts'[1..]);
    }
  }

  lemma SteadyWord(s: State, step: Step, u: nat, t: nat, a: Addr)
    requires Enabled(s, step) && Steady(s, step, u, t, a)
    ensures Agree(s.mem, Apply(s, step).mem, a) && |Apply(s, step).ts| == |s.ts|
    ensures !s.tab.nilled ==> !Apply(s, step).tab.nilled
  {
  }

  /** A steady step makes nobody a taker and nobody a repeater. */
  lemma SteadyTakers(s: State, step: Step, u: nat, t: nat, a: Addr)
    requires Inv(s) && !s.tab.nilled && Enabled(s, step) && Steady(s, step, u, t, a) && NoRepeats(s, t, a)
    ensures var s' := Apply(s, step);
            && Inv(s') && !s'.tab.nilled && |s'.ts| == |s.ts| && a in s'.mem && s'.mem[a] == s.mem[a]
            && NoRepeats(s', t, a)
            && Total(Takers(a, s.mem[a]), s'.ts) <= Total(Takers(a, s.mem[a]), s.ts)
  {
    var s' := Apply(s, step);
    StepInv(s, step);
    SteadyWord(s, step, u, t, a);
    forall x: nat | x < |s.ts| ensures Weaker(s.ts[x].pc, s'.ts[x].pc, a, s.mem[a]) {
      SteadyThread(s, step, u, t, a, x);
    }
    FewerTakers(a, s.mem[a], s.ts, s'.ts);
  }

  /** A sleeper is moved by a delivery, by its timeout, or by a channel that is closed. */
  lemma SleepsOn(s: State, step: Step, u: nat, t: nat, a: Addr)
    requires Inv(s) && !s.tab.nilled && Enabled(s, step) && Steady(s, step, u, t, a) && step != SendTo(u, t)
    requires PCOf(s, t).Parked?
    ensures PCOf(Apply(s, step), t) == PCOf(s, t)
  {
    if Actor(step) != t && !Receives(step, t) {
      OthersStay(s, step, t);
    }
  }

  /** A step of another thread leaves the WAKE heading for `t`. */
  lemma HeadingOther(s: State, step: Step, u: nat, t: nat, a: Addr, n: u32)
    requires Heading(s, u, t, a, n) && Enabled(s, step) && Steady(s, step, u, t, a) && Actor(step) != u
    ensures Heading(Apply(s, step), u, t, a, n)
  {
    SteadyTakers(s, step, u, t, a);
    SleepsOn(s, step, u, t, a);
    OthersStay(s, step, u);
  }

  /** Looking up and reading the word keep it heading for `t`, and it cannot end while `t` sleeps on its channel. */
  lemma HeadingOwn(s: State, step: Step, u: nat, t: nat, a: Addr, n: u32)
    requires Heading(s, u, t, a, n) && Enabled(s, step) && Actor(step) == u && !step.SendTo?
    ensures Heading(Apply(s, step), u, t, a, n)
  {
    var pc := PCOf(s, u);
    assert ThreadOk(s.tab, s.closed, s.ts[u]) && ThreadOk(s.tab, s.closed, s.ts[t]);
    TotalAtLeast(Takers(a, s.mem[a]), s.ts, t);
    if step.SendNone? {
      IncCounts(pc.i, n);
      assert WordReceiver(s.ts[t].pc, pc.ch);
      assert false;
    }
    assert step.Lookup? || step.ReadWord?;
    SteadyTakers(s, step, u, t, a);
    SleepsOn(s, step, u, t, a);
  }

  /** A delivery to somebody else uses up one taker. */
  lemma HeadingSend(s: State, u: nat, x: nat, t: nat, a: Addr, n: u32)
    requires Heading(s, u, t, a, n) && Enabled(s, SendTo(u, x)) && x != t
    ensures Heading(Apply(s, SendTo(u, x)), u, t, a, n)
  {
    SendMeets(s, u, x);
    StepInv(s, SendTo(u, x));
    HeadingOn(s, Apply(s, SendTo(u, x)), u, x, t, a, n);
  }

  lemma HeadingOn(s: State, z: State, u: nat, x: nat, t: nat, a: Addr, n: u32)
    requires Heading(s, u, t, a, n) && Met(s, z, u, x) && Inv(z) && x != t
    requires PCOf(s, u).i != ToI32(n) && PCOf(s, x).tk.ch1 == PCOf(s, u).ch
    ensures Heading(z, u, t, a, n)
  {
    SameAddress(s, u, x);
    MetTakes(s, z, u, x, a);
    MetNoRepeats(s, z, u, x, t, a);
    assert ThreadOk(s.tab, s.closed, s.ts[u]);
    CountsOn(PCOf(s, u).i, n, Total(Takers(a, s.mem[a]), s.ts), Total(Takers(a, s.mem[a]), z.ts));
  }

  /** One delivery more, one taker less. */
  lemma CountsOn(i: i32, n: u32, takers: nat, left: nat)
    requires ToU32(i) <= n && i != ToI32(n) && takers + ToU32(i) <= n && left + 1 == takers
    ensures left + ToU32(Inc(i)) <= n
  {
    IncCounts(i, n);
  }

  lemma MetNoRepeats(s: State, z: State, u: nat, x: nat, t: nat, a: Addr)
    requires Met(s, z, u, x) && NoRepeats(s, t, a) && PCOf(s, u).v == s.mem[a] && ParkedAt(PCOf(s, x), a) && x != t
    ensures NoRepeats(z, t, a) && !CanTake(PCOf(z, x), a, s.mem[a])
  {
    assert !Repeats(s.ts[x].pc, a, s.mem[a]);
  }

  /** A rendezvous of `u` with `x`. */
  predicate Met(s: State, z: State, u: nat, x: nat) {
    && u < |s.ts| == |z.ts| && x < |s.ts| && u != x && PCOf(s, u).Send? && PCOf(s, x).Parked?
    && z == s.(ts := s.ts[u := z.ts[u]][x := z.ts[x]])
    && var p := PCOf(s, u);
       PCOf(z, u) == Send(p.addr, p.n, p.ch, p.v, Inc(p.i)) && PCOf(z, x) == Got(PCOf(s, x).tk, p.v)
  }

  lemma SendMeets(s: State, u: nat, x: nat)
    requires Enabled(s, SendTo(u, x))
    ensures Met(s, Apply(s, SendTo(u, x)), u, x)
  {
    TwoMove(s, SendTo(u, x));
  }

  /** The receiver counts as a taker afterwards only if it goes back to waiting. */
  lemma MetTakes(s: State, z: State, u: nat, x: nat, a: Addr)
    requires Met(s, z, u, x) && a in s.mem && ParkedAt(PCOf(s, x), a)
    ensures var m := Takers(a, s.mem[a]); Total(m, z.ts) + 1 == Total(m, s.ts) + Weight(m, z.ts[x])
  {
    var m := Takers(a, s.mem[a]);
    TotalUpdate(m, s.ts, u, z.ts[u]);
    TotalUpdate(m, s.ts[u := z.ts[u]], x, z.ts[x]);
  }

  lemma {:induction false} HeadingRun(r: Run, s: State, k: nat, u: nat, t: nat, a: Addr, n: u32)
    requires SteadyRun(r, s, u, t, a) && k < |r.ss| && Heading(s, u, t, a, n)
    ensures Reaches(r, k, u, t) || Heading(r.ss[k], u, t, a, n)
  {
    if k > 0 {
      HeadingRun(r, s, k - 1, u, t, a, n);
      if !Reaches(r, k, u, t) {
        var z, step := r.ss[k - 1], r.steps[k - 1];
        assert Follows(r, k - 1);
        assert !Reaches(r, k - 1, u, t) && step != SendTo(u, t);
        if Actor(step) != u {
          HeadingOther(z, step, u, t, a, n);
        } else if step.SendTo? {
          HeadingSend(z, u, step.r, t, a, n);
        } else {
          HeadingOwn(z, step, u, t, a, n);
        }
      }
    }
  }

  /** A sure waiter is reached: every steady continuation in which the WAKE returns delivers to it. */
  lemma SureReached(r: Run, s: State, u: nat, t: nat, a: Addr, n: u32)
    requires Inv(s) && !s.tab.nilled && PCOf(s, u) == Look(a, n) && Sure(s, t, a, n)
    requires Completes(r, s, u, t, a)
    ensures Reaches(r, |r.steps|, u, t)
  {
    HeadingRun(r, s, |r.steps|, u, t, a, n);
  }

  // The waiters that it can miss

  /** The WAKE of `u` returns without having reached `t`. */
  ghost predicate Misses(r: Run, s: State, u: nat, t: nat, a: Addr) {
    Completes(r, s, u, t, a) && !Reaches(r, |r.steps|, u, t)
  }

  /** Puts a steady step in front. */
  lemma MissLater(s: State, step: Step, r: Run, u: nat, t: nat, a: Addr) returns (r': Run)
    requires Enabled(s, step) && Steady(s, step, u, t, a) && step != SendTo(u, t)
    requires Misses(r, Apply(s, step), u, t, a)
    ensures Misses(r', s, u, t, a)
  {
    r' := Prepend(s, step, r);
    forall x | 0 <= x < |r'.steps| ensures Steady(r'.ss[x], r'.steps[x], u, t, a) && r'.steps[x] != SendTo(u, t) {
      if x > 0 {
        assert r'.steps[x] == r.steps[x - 1] && r'.ss[x] == r.ss[x - 1];
        assert Steady(r.ss[x - 1], r.steps[x - 1], u, t, a);
      }
    }
  }

  /** The WAKE alone on its way: all steps are its own. */
  ghost predicate Alone(r: Run, s: State, u: nat) {
    && Linked(r) && r.ss[0] == s
    && forall x :: x in r.steps ==> Actor(x) == u && (x.Lookup? || x.ReadWord? || x.SendTo? || x.SendNone?)
  }

  predicate WordWake(pc: PC, a: Addr) { (pc.Look? || pc.Hold? || pc.Send?) && pc.addr == a }

  /** One step of the WAKE by itself; it delivers to nobody but the sleepers of its address. */
  lemma AloneStep(s: State, u: nat, a: Addr) returns (step: Step)
    requires Inv(s) && !s.tab.nilled && !s.crashed && WordWake(PCOf(s, u), a)
    ensures Enabled(s, step) && Actor(step) == u && (step.Lookup? || step.ReadWord? || step.SendTo? || step.SendNone?)
    ensures step.SendTo? ==> ParkedAt(PCOf(s, step.r), a)
    ensures var z := Apply(s, step);
            && Inv(z) && !z.tab.nilled && !z.crashed && (WordWake(PCOf(z, u), a) || PCOf(z, u).Done?)
            && Fuel(PCOf(z, u)) < Fuel(PCOf(s, u))
  {
    step := WakeNeverBlocks(s, u);
    StepInv(s, step);
    WakeTerminates(s, step, u);
    WordWakeMoves(s, step, u, a);
    if step.SendTo? {
      SameAddress(s, u, step.r);
    }
  }

  lemma WordWakeMoves(s: State, step: Step, u: nat, a: Addr)
    requires !s.tab.nilled && Enabled(s, step) && Actor(step) == u && WordWake(PCOf(s, u), a) && !Apply(s, step).crashed
    ensures step.Lookup? || step.ReadWord? || step.SendTo? || step.SendNone?
    ensures var z := Apply(s, step); !z.tab.nilled && (WordWake(PCOf(z, u), a) || PCOf(z, u).Done?)
  {
  }

  /** Left alone the WAKE returns, having reached none of those that were not asleep at its address. */
  lemma {:induction false} AloneRun(s: State, u: nat, a: Addr) returns (r: Run)
    requires Inv(s) && !s.tab.nilled && !s.crashed && WordWake(PCOf(s, u), a)
    ensures Alone(r, s, u) && PCOf(r.ss[|r.steps|], u).Done?
    ensures forall t: nat :: SendTo(u, t) in r.steps ==> ParkedAt(PCOf(s, t), a)
    decreases Fuel(PCOf(s, u))
  {
    var step := AloneStep(s, u, a);
    var z := Apply(s, step);
    if PCOf(z, u).Done? {
      r := Prepend(s, step, Run([z], []));
    } else {
      var rest := AloneRun(z, u, a);
      r := Prepend(s, step, rest);
      forall t: nat | SendTo(u, t) in rest.steps ensures ParkedAt(PCOf(s, t), a) {
        NotParkedByWake(s, step, u, t, a);
      }
    }
  }

  /** No step of a WAKE puts anybody to sleep. */
  lemma NotParkedByWake(s: State, step: Step, u: nat, t: nat, a: Addr)
    requires Enabled(s, step) && Actor(step) == u && (step.Lookup? || step.ReadWord? || step.SendTo? || step.SendNone?)
    requires ParkedAt(PCOf(Apply(s, step), t), a)
    ensures ParkedAt(PCOf(s, t), a)
  {
    if t != u && !Receives(step, t) {
      OthersStay(s, step, t);
    }
  }

  lemma AloneCompletes(r: Run, s: State, u: nat, t: nat, a: Addr)
    requires Alone(r, s, u) && PCOf(r.ss[|r.steps|], u).Done?
    ensures Completes(r, s, u, t, a)
  {
    forall x | 0 <= x < |r.steps| ensures Steady(r.ss[x], r.steps[x], u, t, a) {
      assert r.steps[x] in r.steps;
    }
  }

  /** The arguments of a wait that can take a delivery. */
  function WaitOf(pc: PC, a: Addr, word: u32): Wait
    requires CanTake(pc, a, word)
  {
    if pc.Enter? then pc.w else pc.tk.w
  }

  function StepsToPark(pc: PC): nat { if pc.Parked? then 0 else if pc.Select? then 1 else 2 }

  /** With the lock free, a wait that can take a delivery moves towards its select by itself. */
  lemma ComesIn(s: State, x: nat, a: Addr) returns (step: Step)
    requires Inv(s) && !s.tab.nilled && !s.crashed && NoReader(s)
    requires a in s.mem && CanTake(PCOf(s, x), a, s.mem[a]) && !PCOf(s, x).Parked?
    ensures Enabled(s, step) && Inward(step) && !step.CheckWord? && step.t == x
    ensures var p, q := PCOf(s, x), PCOf(Apply(s, step), x);
            CanTake(q, a, s.mem[a]) && WaitOf(q, a, s.mem[a]) == WaitOf(p, a, s.mem[a]) && StepsToPark(q) < StepsToPark(p)
  {
    var pc := PCOf(s, x);
    step := if pc.Enter? then Register(x) else if pc.Select? then Park(x) else if pc.Got? then Resume(x) else Reread(x);
  }

  /** Only thread `x` has moved, and it holds no lock. */
  predicate MovedIn(s: State, z: State, x: nat) {
    && z.tab.nilled == s.tab.nilled && z.crashed == s.crashed && z.mem == s.mem
    && x < |s.ts| == |z.ts| && z.ts == s.ts[x := z.ts[x]] && !Reading(z.ts[x].pc)
  }

  lemma OnlyComesIn(s: State, step: Step, x: nat)
    requires Enabled(s, step) && Inward(step) && step.t == x
    ensures MovedIn(s, Apply(s, step), x)
  {
  }

  lemma StillFree(s: State, z: State, x: nat)
    requires NoReader(s) && MovedIn(s, z, x)
    ensures NoReader(z)
  {
  }

  /** Others than `t` can take all that the WAKE still has to give. */
  ghost predicate Supplied(s: State, t: nat, a: Addr, left: int) {
    a in s.mem && (!NoRepeats(s, t, a) || Total(Takers(a, s.mem[a]), s.ts) > left)
  }

  /** The WAKE of `u` is in its send loop on the channel of the sleeper `t`, with the lock free. */
  ghost predicate Serving(s: State, u: nat, t: nat, a: Addr, n: u32) {
    && Inv(s) && !s.tab.nilled && !s.crashed && NoReader(s) && a in s.mem
    && ParkedAt(PCOf(s, t), a)
    && var pc := PCOf(s, u);
       && pc.Send? && pc.addr == a && pc.n == n && pc.ch == PCOf(s, t).tk.ch1 && pc.v == s.mem[a]
       && Supplied(s, t, a, n - ToU32(pc.i))
  }

  /** Who takes the next delivery: a repeater if there is one. */
  lemma NextTaker(s: State, t: nat, a: Addr, left: int) returns (x: nat)
    requires Supplied(s, t, a, left) && left >= 1 && ParkedAt(PCOf(s, t), a)
    ensures x < |s.ts| && x != t && CanTake(s.ts[x].pc, a, s.mem[a])
    ensures Repeats(s.ts[x].pc, a, s.mem[a]) || Total(Takers(a, s.mem[a]), s.ts) > left
  {
    if !NoRepeats(s, t, a) {
      x :| 0 <= x < |s.ts| && x != t && Repeats(s.ts[x].pc, a, s.mem[a]);
    } else {
      TotalUpdate(Takers(a, s.mem[a]), s.ts, t, IDLE);
      x := TotalWitness(Takers(a, s.mem[a]), s.ts[t := IDLE]);
    }
  }

  /** The taker `x` is there for the next delivery. */
  ghost predicate Next(s: State, x: nat, t: nat, a: Addr, left: int) {
    && a in s.mem && x < |s.ts| && x != t && CanTake(s.ts[x].pc, a, s.mem[a])
    && (Repeats(s.ts[x].pc, a, s.mem[a]) || Total(Takers(a, s.mem[a]), s.ts) > left)
  }

  /** While `x` comes in, everything else stays as it is. */
  lemma ServingComesIn(s: State, z: State, u: nat, x: nat, t: nat, a: Addr, n: u32)
    requires Serving(s, u, t, a, n) && Next(s, x, t, a, n - ToU32(PCOf(s, u).i))
    requires MovedIn(s, z, x) && Inv(z)
    requires var q := PCOf(z, x);
             CanTake(q, a, s.mem[a]) && WaitOf(q, a, s.mem[a]) == WaitOf(PCOf(s, x), a, s.mem[a])
    ensures Serving(z, u, t, a, n) && Next(z, x, t, a, n - ToU32(PCOf(z, u).i)) && PCOf(z, u) == PCOf(s, u)
  {
    StillFree(s, z, x);
    TotalUpdate(Takers(a, s.mem[a]), s.ts, x, z.ts[x]);
    if !NoRepeats(s, t, a) {
      var y :| 0 <= y < |s.ts| && y != t && Repeats(s.ts[y].pc, a, s.mem[a]);
      assert Repeats(z.ts[y].pc, a, z.mem[a]);
    }
  }

  /** All sleepers of an address wait on the same channel, so the WAKE can deliver to each of them. */
  lemma CanServe(s: State, u: nat, x: nat, t: nat, a: Addr, n: u32)
    requires Serving(s, u, t, a, n) && x < |s.ts| && ParkedAt(s.ts[x].pc, a) && PCOf(s, u).i != ToI32(n)
    ensures Enabled(s, SendTo(u, x))
  {
    assert ThreadOk(s.tab, s.closed, s.ts[x]) && ThreadOk(s.tab, s.closed, s.ts[t]);
  }

  /** The delivery to `x`: a repeater is still there, or one taker and one delivery are used up. */
  lemma Served(s: State, z: State, u: nat, x: nat, t: nat, a: Addr, n: u32)
    requires Serving(s, u, t, a, n) && Next(s, x, t, a, n - ToU32(PCOf(s, u).i)) && Met(s, z, u, x) && Inv(z)
    requires PCOf(s, u).i != ToI32(n)
    ensures Serving(z, u, t, a, n) && ToU32(PCOf(z, u).i) == ToU32(PCOf(s, u).i) + 1 <= n
  {
    assert ThreadOk(s.tab, s.closed, s.ts[u]);
    IncCounts(PCOf(s, u).i, n);
    MetTakes(s, z, u, x, a);
    if Repeats(s.ts[x].pc, a, s.mem[a]) {
      assert Repeats(z.ts[x].pc, a, z.mem[a]);
    }
  }

  /** All deliveries can go to others than `t`, with `x` the next to take one. */
  lemma {:induction false} Starve(s: State, u: nat, x: nat, t: nat, a: Addr, n: u32) returns (r: Run)
    requires Serving(s, u, t, a, n) && Next(s, x, t, a, n - ToU32(PCOf(s, u).i)) && PCOf(s, u).i != ToI32(n)
    ensures Misses(r, s, u, t, a)
    decreases n - ToU32(PCOf(s, u).i), StepsToPark(PCOf(s, x))
  {
    if !PCOf(s, x).Parked? {
      var step := ComesIn(s, x, a);
      OnlyComesIn(s, step, x);
      StepInv(s, step);
      ServingComesIn(s, Apply(s, step), u, x, t, a, n);
      r := Starve(Apply(s, step), u, x, t, a, n);
      r := MissLater(s, step, r, u, t, a);
    } else {
      CanServe(s, u, x, t, a, n);
      SendMeets(s, u, x);
      StepInv(s, SendTo(u, x));
      Served(s, Apply(s, SendTo(u, x)), u, x, t, a, n);
      r := StarveOn(Apply(s, SendTo(u, x)), u, t, a, n);
      r := MissLater(s, SendTo(u, x), r, u, t, a);
    }
  }

  lemma {:induction false} StarveOn(s: State, u: nat, t: nat, a: Addr, n: u32) returns (r: Run)
    requires Serving(s, u, t, a, n) && ToU32(PCOf(s, u).i) <= n
    ensures Misses(r, s, u, t, a)
    decreases n - ToU32(PCOf(s, u).i), 3
  {
    IncCounts(PCOf(s, u).i, n);
    if PCOf(s, u).i == ToI32(n) {
      r := MissLater(s, SendNone(u), Run([Apply(s, SendNone(u))], []), u, t, a);
    } else {
      var x := NextTaker(s, t, a, n - ToU32(PCOf(s, u).i));
      r := Starve(s, u, x, t, a, n);
    }
  }

  /** The WAKE finds the channel of a sleeper and reads the word. */
  lemma Enters(s: State, u: nat, t: nat, a: Addr, n: u32)
    requires Inv(s) && !s.tab.nilled && !s.crashed && a in s.mem && PCOf(s, u) == Look(a, n) && ParkedAt(PCOf(s, t), a)
    ensures Enabled(s, Lookup(u))
    ensures var y := Apply(s, Lookup(u));
            && Enabled(y, ReadWord(u))
            && Apply(y, ReadWord(u)) == Go(s, u, Send(a, n, PCOf(s, t).tk.ch1, s.mem[a], 0))
  {
    assert ThreadOk(s.tab, s.closed, s.ts[t]);
  }

  /** A sleeper that is not sure to be reached can be missed, although the WAKE finds its channel. */
  lemma Unsure(s: State, u: nat, t: nat, a: Addr, n: u32) returns (r: Run)
    requires Inv(s) && !s.tab.nilled && !s.crashed && NoReader(s) && a in s.mem
    requires PCOf(s, u) == Look(a, n) && ParkedAt(PCOf(s, t), a) && !Sure(s, t, a, n)
    ensures Misses(r, s, u, t, a)
  {
    Enters(s, u, t, a, n);
    var y := Apply(s, Lookup(u));
    StepInv(s, Lookup(u));
    StepInv(y, ReadWord(u));
    StillUnsure(s, Apply(y, ReadWord(u)), u, t, a, n);
    r := StarveOn(Apply(y, ReadWord(u)), u, t, a, n);
    r := MissLater(y, ReadWord(u), r, u, t, a);
    r := MissLater(s, Lookup(u), r, u, t, a);
  }

  lemma StillUnsure(s: State, z: State, u: nat, t: nat, a: Addr, n: u32)
    requires NoReader(s) && a in s.mem && ParkedAt(PCOf(s, t), a) && !Sure(s, t, a, n) && u < |s.ts| && PCOf(s, u).Look?
    requires Inv(z) && !s.tab.nilled && !s.crashed && z == Go(s, u, Send(a, n, PCOf(s, t).tk.ch1, s.mem[a], 0))
    ensures Serving(z, u, t, a, n)
  {
    TotalUpdate(Takers(a, s.mem[a]), s.ts, u, z.ts[u]);
    StillFree(s, z, u);
    if !NoRepeats(s, t, a) {
      var y :| 0 <= y < |s.ts| && y != t && Repeats(s.ts[y].pc, a, s.mem[a]);
      assert Repeats(z.ts[y].pc, a, z.mem[a]);
    }
  }

  lemma ReachedFromLook(s: State, u: nat, t: nat, a: Addr, n: u32)
    requires Inv(s) && !s.tab.nilled && !s.crashed && NoReader(s) && a in s.mem && PCOf(s, u) == Look(a, n)
    ensures (forall r: Run :: Completes(r, s, u, t, a) ==> Reaches(r, |r.steps|, u, t)) <==> Sure(s, t, a, n)
    ensures exists r: Run :: Completes(r, s, u, t, a)
  {
    var alone := AloneRun(s, u, a);
    AloneCompletes(alone, s, u, t, a);
    if Sure(s, t, a, n) {
      forall r: Run | Completes(r, s, u, t, a) ensures Reaches(r, |r.steps|, u, t) {
        SureReached(r, s, u, t, a, n);
      }
    } else if ParkedAt(PCOf(s, t), a) {
      var r := Unsure(s, u, t, a, n);
      assert Misses(r, s, u, t, a);
    } else {
      assert !Reaches(alone, |alone.steps|, u, t);
    }
  }

  /** Beginning a WAKE changes nobody's chances. */
  lemma SameChances(s: State, z: State, u: nat, t: nat, a: Addr, n: u32)
    requires a in s.mem && u < |s.ts| && (s.ts[u].pc.Idle? || s.ts[u].pc.Done?) && z == Go(s, u, Look(a, n))
    ensures Sure(z, t, a, n) <==> Sure(s, t, a, n)
  {
    TotalUpdate(Takers(a, s.mem[a]), s.ts, u, z.ts[u]);
    SameRepeats(s, z, u, t, a, n);
  }

  lemma SameRepeats(s: State, z: State, u: nat, t: nat, a: Addr, n: u32)
    requires a in s.mem && u < |s.ts| && (s.ts[u].pc.Idle? || s.ts[u].pc.Done?) && z == Go(s, u, Look(a, n))
    ensures NoRepeats(z, t, a) <==> NoRepeats(s, t, a)
  {
    if x :| 0 <= x < |s.ts| && x != t && Repeats(s.ts[x].pc, a, s.mem[a]) {
      assert Repeats(z.ts[x].pc, a, z.mem[a]);
    }
    if x :| 0 <= x < |z.ts| && x != t && Repeats(z.ts[x].pc, a, z.mem[a]) {
      assert Repeats(s.ts[x].pc, a, s.mem[a]);
    }
  }

  /**
   Exactly when a wake-up cannot be lost. When futex(a, FUTEX_WAKE, n) is called on a readable word, with the lock
   free: every steady continuation in which the call returns delivers to `t` if and only if `t` is asleep at the
   address, nobody else there would take deliveries again and again, and `n` covers all who can take one. And
   there is such a continuation.
   */
  lemma ReachedIffSure(s: State, u: nat, t: nat, a: Addr, n: u32)
    requires Inv(s) && !s.tab.nilled && NoReader(s) && a in s.mem && Enabled(s, Begin(u, WakeCall(a, n)))
    ensures var z := Apply(s, Begin(u, WakeCall(a, n)));
            && ((forall r: Run :: Completes(r, z, u, t, a) ==> Reaches(r, |r.steps|, u, t)) <==> Sure(s, t, a, n))
            && exists r: Run :: Completes(r, z, u, t, a)
  {
    var z := Apply(s, Begin(u, WakeCall(a, n)));
    StepInv(s, Begin(u, WakeCall(a, n)));
    BegunFree(s, z, u, a, n);
    SameChances(s, z, u, t, a, n);
    ReachedFromLook(z, u, t, a, n);
  }

  lemma BegunFree(s: State, z: State, u: nat, a: Addr, n: u32)
    requires NoReader(s) && Enabled(s, Begin(u, WakeCall(a, n))) && z == Apply(s, Begin(u, WakeCall(a, n)))
    ensures z == Go(s, u, Look(a, n)) && NoReader(z) && PCOf(z, u) == Look(a, n)
  {
  }
}
