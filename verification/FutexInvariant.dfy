/** What every step of the futex protocol keeps. */
module FutexInvariant {
  import opened Machine
  import opened FutexTable
  import opened FutexProtocol

  /** The reference count stored under a key; 0 when there is no entry. */
  function RefOf(tab: Tables, k: Key): int {
    match k
    case AtAddr(a) => if a in tab.awaits then tab.awaits[a].ref else 0
    case AtMask(b) => if b in tab.bits then tab.bits[b].ref else 0
  }

  /** The channel stored under a key is `c`. */
  predicate Stores(tab: Tables, k: Key, c: Chan) {
    match k
    case AtAddr(a) => a in tab.awaits && tab.awaits[a].ch == c
    case AtMask(b) => b in tab.bits && tab.bits[b].ch == c
  }

  /** Before Close the channel is the one now stored under the key; afterwards it is closed. */
  predicate Live(tab: Tables, closed: set<Chan>, k: Key, c: Chan) {
    && MadeFor(tab.made, c, k)
    && (if tab.nilled then c in closed else Stores(tab, k, c))
  }

  predicate TicketOk(tab: Tables, closed: set<Chan>, tk: Ticket) {
    && Live(tab, closed, AtAddr(tk.w.addr), tk.ch1)
    && (tk.w.kind.Bits? ==> Live(tab, closed, AtMask(tk.w.kind.mask), tk.ch2))
  }

  predicate WakerOk(tab: Tables, pc: PC) {
    match pc
    case Hold(a, _, c) => MadeFor(tab.made, c, AtAddr(a))
    case Send(a, n, c, _, i) => MadeFor(tab.made, c, AtAddr(a)) && ToU32(i) <= n
    case Scan(_, n, i, todo) => todo <= tab.bits.Keys && ToU32(i) <= n
    case Pump(m, n, i, todo, b) => todo <= tab.bits.Keys && ToU32(i) <= n && b in tab.bits && Meets(b, m)
    case _ => true
  }

  predicate AccountOk(nilled: bool, th: Thread) {
    && th.acct.sent == th.acct.reported + Weight(InProgress, th)
    && th.acct.received + (if th.pc.Parked? then 1 else 0) <= th.acct.parks
    && (!nilled ==> th.acct.zeros + (if th.pc.Got? || th.pc.GotBit? then 1 else 0) <= th.acct.received)
  }

  ghost predicate ThreadOk(tab: Tables, closed: set<Chan>, th: Thread) {
    && (Registered(th.pc) ==> TicketOk(tab, closed, th.pc.tk))
    && WakerOk(tab, th.pc)
    && AccountOk(tab.nilled, th)
  }

  ghost predicate TableOk(tab: Tables, closed: set<Chan>) {
    && Labelled(tab)
    && (forall a :: a in tab.awaits ==> tab.awaits[a].ref > 0)
    && (forall b :: b in tab.bits ==> tab.bits[b].ref > 0)
    && (if tab.nilled then tab.awaits == map[] && tab.bits == map[] else closed == {})
  }

  ghost predicate ThreadsOk(tab: Tables, closed: set<Chan>, ts: seq<Thread>) {
    forall i :: 0 <= i < |ts| ==> ThreadOk(tab, closed, ts[i])
  }

  /** Each stored count is the number of threads registered under that key. */
  ghost predicate RefsOk(tab: Tables, ts: seq<Thread>) {
    !tab.nilled ==> forall k: Key :: RefOf(tab, k) == Total(RegisteredAt(k), ts)
  }

  ghost predicate Inv(s: State) {
    && TableOk(s.tab, s.closed)
    && ThreadsOk(s.tab, s.closed, s.ts)
    && RefsOk(s.tab, s.ts)
    && Total(Sent, s.ts) == Total(Received, s.ts)
  }

  lemma InitInv(s: State)
    requires Init(s)
    ensures Inv(s)
  {
    forall k: Key ensures RefOf(s.tab, k) == Total(RegisteredAt(k), s.ts) {
      TotalZero(RegisteredAt(k), s.ts);
    }
    TotalZero(Sent, s.ts);
    TotalZero(Received, s.ts);
  }

  /** Same registration, seen from the tables. */
  predicate SameSeat(p: PC, q: PC) {
    && Registered(p) == Registered(q)
    && (Registered(p) ==> p.tk.w == q.tk.w)
  }

  /** Replacing one thread by another with the same registration keeps every count. */
  lemma SameSeatRefs(tab: Tables, ts: seq<Thread>, t: nat, x: Thread)
    requires t < |ts| && RefsOk(tab, ts) && SameSeat(ts[t].pc, x.pc)
    ensures RefsOk(tab, ts[t := x])
  {
    forall k: Key ensures Total(RegisteredAt(k), ts[t := x]) == Total(RegisteredAt(k), ts) {
      TotalUpdate(RegisteredAt(k), ts, t, x);
    }
  }

  /** A step that only moves thread `t` and touches no table. */
  lemma LocalMove(s: State, t: nat, x: Thread)
    requires Inv(s) && t < |s.ts|
    requires ThreadOk(s.tab, s.closed, x) && SameSeat(s.ts[t].pc, x.pc)
    requires x.acct.sent == s.ts[t].acct.sent && x.acct.received == s.ts[t].acct.received
    ensures Inv(s.(ts := s.ts[t := x]))
  {
    SameSeatRefs(s.tab, s.ts, t, x);
    TotalUpdate(Sent, s.ts, t, x);
    TotalUpdate(Received, s.ts, t, x);
  }

  /** A rendezvous moves two threads and counts once on each side. */
  lemma DeliverInv(s: State, t: nat, pc: PC, r: nat, got: PC)
    requires Inv(s) && t < |s.ts| && r < |s.ts| && t != r
    requires SameSeat(s.ts[t].pc, pc) && SameSeat(s.ts[r].pc, got)
    requires ThreadOk(s.tab, s.closed, Deliver(s, t, pc, r, got).ts[t])
    requires ThreadOk(s.tab, s.closed, Deliver(s, t, pc, r, got).ts[r])
    ensures Inv(Deliver(s, t, pc, r, got))
  {
    var s' := Deliver(s, t, pc, r, got);
    var x, y := s'.ts[t], s'.ts[r];
    var ts1 := s.ts[t := x];
    assert s'.ts == ts1[r := y];
    SameSeatRefs(s.tab, s.ts, t, x);
    SameSeatRefs(s.tab, ts1, r, y);
    TotalUpdate(Sent, s.ts, t, x);
    TotalUpdate(Sent, ts1, r, y);
    TotalUpdate(Received, s.ts, t, x);
    TotalUpdate(Received, ts1, r, y);
  }

  /** Truncation and the wrapping counter: as long as the bound is not met, the count goes up by exactly one. */
  lemma IncCounts(i: i32, n: u32)
    requires ToU32(i) <= n
    ensures i == ToI32(n) <==> ToU32(i) == n
    ensures i != ToI32(n) ==> ToU32(Inc(i)) == ToU32(i) + 1 <= n
  {
  }

  lemma SendToInv(s: State, t: nat, r: nat)
    requires Inv(s) && Enabled(s, SendTo(t, r))
    ensures Inv(Apply(s, SendTo(t, r)))
  {
    var pc := s.ts[t].pc;
    IncCounts(pc.i, pc.n);
    assert ThreadOk(s.tab, s.closed, s.ts[t]) && ThreadOk(s.tab, s.closed, s.ts[r]);
    DeliverInv(s, t, Send(pc.addr, pc.n, pc.ch, pc.v, Inc(pc.i)), r, Got(s.ts[r].pc.tk, pc.v));
  }

  lemma PumpToInv(s: State, t: nat, r: nat)
    requires Inv(s) && Enabled(s, PumpTo(t, r))
    ensures Inv(Apply(s, PumpTo(t, r)))
  {
    var pc := s.ts[t].pc;
    IncCounts(pc.i, pc.n);
    assert ThreadOk(s.tab, s.closed, s.ts[t]) && ThreadOk(s.tab, s.closed, s.ts[r]);
    DeliverInv(s, t, Pump(pc.mask, pc.n, Inc(pc.i), pc.todo, pc.b), r, GotBit(s.ts[r].pc.tk));
  }

  lemma AddAddrTable(tab: Tables, a: Addr)
    requires TableOk(tab, {}) && !tab.nilled
    ensures var (tab', c) := AddAddr(tab, a);
            && TableOk(tab', {}) && tab.made <= tab'.made && Stores(tab', AtAddr(a), c)
            && (forall k: Key :: RefOf(tab', k) == RefOf(tab, k) + (if k == AtAddr(a) then 1 else 0))
            && (forall k: Key, c: Chan :: Stores(tab, k, c) ==> Stores(tab', k, c))
  {
    LabelledAddAddr(tab, a);
  }

  lemma AddMaskTable(tab: Tables, b: Mask)
    requires TableOk(tab, {}) && !tab.nilled
    ensures var (tab', c) := AddMask(tab, b);
            && TableOk(tab', {}) && tab.made <= tab'.made && Stores(tab', AtMask(b), c)
            && (forall k: Key :: RefOf(tab', k) == RefOf(tab, k) + (if k == AtMask(b) then 1 else 0))
            && (forall k: Key, c: Chan :: Stores(tab, k, c) ==> Stores(tab', k, c))
  {
    LabelledAddMask(tab, b);
  }

  lemma AdmitTable(tab: Tables, w: Wait)
    requires TableOk(tab, {}) && !tab.nilled
    ensures var (tab', tk) := Admit(tab, w);
            && TableOk(tab', {}) && !tab'.nilled && tab.made <= tab'.made
            && tk.w == w && TicketOk(tab', {}, tk)
            && (forall k: Key :: RefOf(tab', k) == RefOf(tab, k) + (if HasKey(w, k) then 1 else 0))
            && (forall k: Key, c: Chan :: Stores(tab, k, c) ==> Stores(tab', k, c))
  {
    AddAddrTable(tab, w.addr);
    if w.kind.Bits? {
      AddMaskTable(AddAddr(tab, w.addr).0, w.kind.mask);
    }
  }

  /** A thread that holds no lock is not disturbed by tables that only grow. */
  lemma ThreadKept(tab: Tables, tab': Tables, closed: set<Chan>, th: Thread)
    requires ThreadOk(tab, closed, th) && !Reading(th.pc) && !tab.nilled && !tab'.nilled && tab.made <= tab'.made
    requires forall k: Key, c: Chan :: Stores(tab, k, c) ==> Stores(tab', k, c)
    ensures ThreadOk(tab', closed, th)
  {
  }

  lemma RegisterInv(s: State, t: nat)
    requires Inv(s) && Enabled(s, Register(t))
    ensures Inv(Apply(s, Register(t)))
  {
    AdmitTable(s.tab, s.ts[t].pc.w);
    var s' := Apply(s, Register(t));
    assert ThreadOk(s.tab, s.closed, s.ts[t]);
    forall i | 0 <= i < |s.ts| && i != t ensures ThreadOk(s'.tab, s.closed, s'.ts[i]) {
      assert ThreadOk(s.tab, s.closed, s.ts[i]);
      ThreadKept(s.tab, s'.tab, s.closed, s.ts[i]);
    }
    SeatTaken(s, s', t);
  }

  /** One more thread is registered, under the keys whose counts went up. */
  lemma SeatTaken(s: State, s': State, t: nat)
    requires Inv(s) && t < |s.ts| && !s.tab.nilled && TableOk(s'.tab, s'.closed) && s'.closed == s.closed
    requires |s'.ts| == |s.ts| && s'.ts == s.ts[t := s'.ts[t]] && s'.ts[t].acct == s.ts[t].acct
    requires !Registered(s.ts[t].pc) && Registered(s'.ts[t].pc)
    requires forall k: Key :: RefOf(s'.tab, k) == RefOf(s.tab, k) + (if HasKey(s'.ts[t].pc.tk.w, k) then 1 else 0)
    requires forall i :: 0 <= i < |s'.ts| ==> ThreadOk(s'.tab, s'.closed, s'.ts[i])
    ensures Inv(s')
  {
    forall k: Key ensures RefOf(s'.tab, k) == Total(RegisteredAt(k), s'.ts) {
      TotalUpdate(RegisteredAt(k), s.ts, t, s'.ts[t]);
    }
    TotalUpdate(Sent, s.ts, t, s'.ts[t]);
    TotalUpdate(Received, s.ts, t, s'.ts[t]);
  }

  lemma DelAddrTable(tab: Tables, closed: set<Chan>, a: Addr)
    requires TableOk(tab, closed) && !tab.nilled && RefOf(tab, AtAddr(a)) > 0
    ensures var tab' := DelAddr(tab, a);
            && TableOk(tab', closed) && tab'.made == tab.made && tab'.nilled == tab.nilled
            && (forall k: Key :: RefOf(tab', k) == RefOf(tab, k) - (if k == AtAddr(a) then 1 else 0))
            && (forall k: Key, c: Chan :: Stores(tab, k, c) && RefOf(tab', k) > 0 ==> Stores(tab', k, c))
  {
  }

  lemma DelMaskTable(tab: Tables, closed: set<Chan>, b: Mask)
    requires TableOk(tab, closed) && !tab.nilled && RefOf(tab, AtMask(b)) > 0
    ensures var tab' := DelMask(tab, b);
            && TableOk(tab', closed) && tab'.made == tab.made && tab'.nilled == tab.nilled
            && (forall k: Key :: RefOf(tab', k) == RefOf(tab, k) - (if k == AtMask(b) then 1 else 0))
            && (forall k: Key, c: Chan :: Stores(tab, k, c) && RefOf(tab', k) > 0 ==> Stores(tab', k, c))
  {
  }

  lemma DismissTable(tab: Tables, closed: set<Chan>, w: Wait)
    requires TableOk(tab, closed)
    requires forall k :: HasKey(w, k) && !tab.nilled ==> RefOf(tab, k) > 0
    ensures var tab' := Dismiss(tab, w);
            && TableOk(tab', closed) && tab'.made == tab.made && tab'.nilled == tab.nilled
            && (tab.nilled ==> tab' == tab)
            && (!tab.nilled ==> forall k: Key :: RefOf(tab', k) == RefOf(tab, k) - (if HasKey(w, k) then 1 else 0))
            && (forall k: Key, c: Chan :: Stores(tab, k, c) && RefOf(tab', k) > 0 ==> Stores(tab', k, c))
  {
    if !tab.nilled {
      assert HasKey(w, AtAddr(w.addr));
      DelAddrTable(tab, closed, w.addr);
      if w.kind.Bits? {
        assert HasKey(w, AtMask(w.kind.mask));
        DelMaskTable(DelAddr(tab, w.addr), closed, w.kind.mask);
      }
    }
  }

  lemma DeregisterInv(s: State, t: nat)
    requires Inv(s) && Enabled(s, Deregister(t))
    ensures Inv(Apply(s, Deregister(t)))
  {
    var w := s.ts[t].pc.tk.w;
    assert ThreadOk(s.tab, s.closed, s.ts[t]);
    forall k | HasKey(w, k) && !s.tab.nilled ensures RefOf(s.tab, k) > 0 {
      TotalAtLeast(RegisteredAt(k), s.ts, t);
    }
    DismissTable(s.tab, s.closed, w);
    SeatLeft(s, Apply(s, Deregister(t)), t, w);
  }

  /** One thread fewer is registered, under the keys whose counts went down; the others keep their entries. */
  lemma SeatLeft(s: State, s': State, t: nat, w: Wait)
    requires Inv(s) && t < |s.ts| && NoReader(s) && TableOk(s'.tab, s'.closed) && s'.closed == s.closed
    requires |s'.ts| == |s.ts| && s'.ts == s.ts[t := s'.ts[t]] && s'.ts[t].acct == s.ts[t].acct
    requires s.ts[t].pc.Leave? && s.ts[t].pc.tk.w == w && s'.ts[t].pc.Done?
    requires s'.tab.made == s.tab.made && s'.tab.nilled == s.tab.nilled && (s.tab.nilled ==> s'.tab == s.tab)
    requires !s.tab.nilled ==> forall k: Key :: RefOf(s'.tab, k) == RefOf(s.tab, k) - (if HasKey(w, k) then 1 else 0)
    requires forall k: Key, c: Chan :: Stores(s.tab, k, c) && RefOf(s'.tab, k) > 0 ==> Stores(s'.tab, k, c)
    ensures Inv(s')
  {
    forall k: Key ensures !s.tab.nilled ==> RefOf(s'.tab, k) == Total(RegisteredAt(k), s'.ts) {
      TotalUpdate(RegisteredAt(k), s.ts, t, s'.ts[t]);
    }
    forall i | 0 <= i < |s.ts| ensures ThreadOk(s'.tab, s.closed, s'.ts[i]) {
      assert ThreadOk(s.tab, s.closed, s.ts[i]);
      if i != t && Registered(s.ts[i].pc) && !s.tab.nilled {
        SeatKept(s'.tab, s.tab, s.closed, s'.ts, i);
      }
    }
    TotalUpdate(Sent, s.ts, t, s'.ts[t]);
    TotalUpdate(Received, s.ts, t, s'.ts[t]);
  }

  /** A thread still registered keeps its entries when another one deregisters. */
  lemma SeatKept(tab': Tables, tab: Tables, closed: set<Chan>, ts': seq<Thread>, i: nat)
    requires i < |ts'| && Registered(ts'[i].pc) && TicketOk(tab, closed, ts'[i].pc.tk)
    requires !tab.nilled && !tab'.nilled && tab'.made == tab.made
    requires forall k: Key :: RefOf(tab', k) == Total(RegisteredAt(k), ts')
    requires forall k: Key, c: Chan :: Stores(tab, k, c) && RefOf(tab', k) > 0 ==> Stores(tab', k, c)
    ensures TicketOk(tab', closed, ts'[i].pc.tk)
  {
    var w := ts'[i].pc.tk.w;
    TotalAtLeast(RegisteredAt(AtAddr(w.addr)), ts', i);
    if w.kind.Bits? {
      TotalAtLeast(RegisteredAt(AtMask(w.kind.mask)), ts', i);
    }
  }

  lemma CloseInv(s: State)
    requires Inv(s) && Enabled(s, Close)
    ensures Inv(Apply(s, Close))
  {
    var s' := Apply(s, Close);
    forall i | 0 <= i < |s.ts| ensures ThreadOk(s'.tab, s'.closed, s.ts[i]) {
      assert ThreadOk(s.tab, s.closed, s.ts[i]);
      if Registered(s.ts[i].pc) && !s.tab.nilled {
        var tk := s.ts[i].pc.tk;
        assert s.tab.awaits[tk.w.addr].ch in AllChans(s.tab);
        if tk.w.kind.Bits? {
          assert s.tab.bits[tk.w.kind.mask].ch in AllChans(s.tab);
        }
      }
    }
  }

  // The steps that move one thread and leave the tables alone

  /** Only thread `t` has moved; it is in order, and registered and accounted for as before. */
  ghost predicate Local(s: State, s': State, t: nat) {
    && t < |s.ts| == |s'.ts| && s'.tab == s.tab && s'.closed == s.closed && s'.ts == s.ts[t := s'.ts[t]]
    && ThreadOk(s.tab, s.closed, s'.ts[t]) && SameSeat(s.ts[t].pc, s'.ts[t].pc)
    && s'.ts[t].acct.sent == s.ts[t].acct.sent && s'.ts[t].acct.received == s.ts[t].acct.received
  }

  lemma LocalInv(s: State, s': State, t: nat)
    requires Inv(s) && Local(s, s', t)
    ensures Inv(s')
  {
    LocalMove(s, t, s'.ts[t]);
  }

  lemma OutsideLocal(s: State, step: Step)
    requires Enabled(s, step)
    requires step.Begin? || step.CheckWord? || step.BadTimeout?
    requires step.t < |s.ts| && Labelled(s.tab) && ThreadOk(s.tab, s.closed, s.ts[step.t])
    ensures Local(s, Apply(s, step), step.t)
  {
  }

  lemma ParkLocal(s: State, step: Step)
    requires Enabled(s, step)
    requires step.Park? || step.Timeout? || step.ClosedWord? || step.ClosedBit?
    requires step.t < |s.ts| && TableOk(s.tab, s.closed) && ThreadOk(s.tab, s.closed, s.ts[step.t])
    ensures Local(s, Apply(s, step), step.t)
  {
  }

  lemma WokenLocal(s: State, step: Step)
    requires Enabled(s, step)
    requires step.Resume? || step.Reread?
    requires step.t < |s.ts| && Labelled(s.tab) && ThreadOk(s.tab, s.closed, s.ts[step.t])
    ensures Local(s, Apply(s, step), step.t)
  {
  }

  lemma WakeLocal(s: State, step: Step)
    requires Enabled(s, step)
    requires step.Lookup? || step.ReadWord? || step.SendNone?
    requires step.t < |s.ts| && Labelled(s.tab) && ThreadOk(s.tab, s.closed, s.ts[step.t])
    ensures Local(s, Apply(s, step), step.t)
  {
  }

  lemma ScanLocal(s: State, step: Step)
    requires Enabled(s, step)
    requires step.ReadLock? || step.Bucket?
    requires step.t < |s.ts| && Labelled(s.tab) && ThreadOk(s.tab, s.closed, s.ts[step.t])
    ensures Local(s, Apply(s, step), step.t)
  {
  }

  lemma PumpLocal(s: State, step: Step)
    requires Enabled(s, step)
    requires step.PumpNone? || step.Unlock?
    requires step.t < |s.ts| && Labelled(s.tab) && ThreadOk(s.tab, s.closed, s.ts[step.t])
    ensures Local(s, Apply(s, step), step.t)
  {
  }

  predicate WaitSide(step: Step) {
    || step.Begin? || step.CheckWord? || step.BadTimeout? || step.Register? || step.Park? || step.Timeout?
    || step.ClosedWord? || step.ClosedBit? || step.Resume? || step.Reread? || step.Deregister?
  }

  lemma WaitSideInv(s: State, step: Step)
    requires Inv(s) && Enabled(s, step) && WaitSide(step)
    ensures Inv(Apply(s, step))
  {
    assert ThreadOk(s.tab, s.closed, s.ts[step.t]);
    if step.Register? {
      RegisterInv(s, step.t);
    } else if step.Deregister? {
      DeregisterInv(s, step.t);
    } else if step.Begin? || step.CheckWord? || step.BadTimeout? {
      OutsideLocal(s, step);
      LocalInv(s, Apply(s, step), step.t);
    } else if step.Resume? || step.Reread? {
      WokenLocal(s, step);
      LocalInv(s, Apply(s, step), step.t);
    } else {
      ParkLocal(s, step);
      LocalInv(s, Apply(s, step), step.t);
    }
  }

  lemma WakeSideInv(s: State, step: Step)
    requires Inv(s) && Enabled(s, step) && !WaitSide(step)
    ensures Inv(Apply(s, step))
  {
    if step.SendTo? {
      SendToInv(s, step.t, step.r);
    } else if step.PumpTo? {
      PumpToInv(s, step.t, step.r);
    } else if step.Close? {
      CloseInv(s);
    } else if step.Lookup? || step.ReadWord? || step.SendNone? {
      assert ThreadOk(s.tab, s.closed, s.ts[step.t]);
      WakeLocal(s, step);
      LocalInv(s, Apply(s, step), step.t);
    } else if step.ReadLock? || step.Bucket? || step.PumpNone? || step.Unlock? {
      BitsSideInv(s, step);
    }
  }

  lemma BitsSideInv(s: State, step: Step)
    requires Inv(s) && Enabled(s, step) && (step.ReadLock? || step.Bucket? || step.PumpNone? || step.Unlock?)
    ensures Inv(Apply(s, step))
  {
    assert ThreadOk(s.tab, s.closed, s.ts[step.t]);
    if step.ReadLock? || step.Bucket? {
      ScanLocal(s, step);
    } else {
      PumpLocal(s, step);
    }
    LocalInv(s, Apply(s, step), step.t);
  }

  /** Every step of every thread keeps the invariant. */
  lemma StepInv(s: State, step: Step)
    requires Inv(s) && Enabled(s, step)
    ensures Inv(Apply(s, step))
  {
    if WaitSide(step) {
      WaitSideInv(s, step);
    } else {
      WakeSideInv(s, step);
    }
  }
}
