/**
 The descriptor flag table of `kernel/fcntl.go`. The numbers themselves belong to the debugger:
 making or duplicating a descriptor yields an unused number and closing one gives it back. The
 flags live in a side table that the system calls have to keep in step.
 */
module Descriptors {
  import opened Machine

  const O_CLOEXEC := 0x80000

  predicate HasCloexec(f: i32) { f / O_CLOEXEC % 2 == 1 }

  /** `f | O_CLOEXEC`: bit 19 is set and every other bit stays. */
  function SetCloexec(f: i32): (r: i32)
    ensures HasCloexec(r)
    ensures r % O_CLOEXEC == f % O_CLOEXEC && r / (2 * O_CLOEXEC) == f / (2 * O_CLOEXEC)
  {
    if HasCloexec(f) then f else f + O_CLOEXEC
  }

  /** Close-on-exec is bit 19 of the flags. */
  lemma CloexecBit(f: i32)
    ensures HasCloexec(f) <==> Bit(ToU32(f), 19)
  {
    Shr19(ToU32(f));
    assert ToU32(f) == if f < 0 then f + TWO32 else f;
  }

  datatype Errno = EBADF | ENOENT | EEXIST | ENOTDIR | EMFILE | EAFNOSUPPORT | EACCES

  datatype Result = Ret(v: i32) | Err(errno: Errno) | Panic

  /** The open numbers, and the flags recorded for some of them; a number without an entry reads as 0. */
  datatype Table = Table(open: set<int>, flags: map<int, i32>)

  const EMPTY := Table({}, map[])

  function Flags(t: Table, fd: int): i32 { if fd in t.flags then t.flags[fd] else 0 }

  /** A system call, together with the number the debugger chose for it, if it made a descriptor. */
  datatype Op =
    | Open(made: int, flags: i32)
    | OpenFails(errno: Errno)
    | Pipe(r: int, w: int, flags: i32)
    | PipeFails
    | Socket(made: int)
    | SocketFails(errno: Errno)
    | Dup3(oldfd: u32, newfd: u32, flags: i32)
    | DupFd(fd: u32, made: int)
    | DupFdFails(fd: u32)
    | GetFd(fd: u32)
    | SetFd(fd: u32)
    | GetFl(fd: u32)
    | SetFl(fd: u32, arg: int)
    | FileLock(fd: u32)
    | OtherCmd(fd: u32)
    | Close(fd: u32)

  /** The debugger hands out unused numbers. */
  predicate Legal(t: Table, op: Op) {
    match op
    case Open(fd, _) => fd !in t.open
    case Pipe(r, w, _) => r !in t.open && w !in t.open && r != w
    case Socket(fd) => fd !in t.open
    case DupFd(_, newfd) => newfd !in t.open
    case _ => true
  }

  /** What a call does to the table, and its result. */
  function Apply(t: Table, op: Op): (Table, Result) {
    match op
    case Open(fd, fl) => (Table(t.open + {fd}, t.flags[fd := fl]), Ret(ToI32(fd)))
    case OpenFails(e) => (t, Err(e))
    case Pipe(r, w, fl) => (Table(t.open + {r, w}, t.flags[r := fl][w := fl]), Ret(0))
    case PipeFails => (t, Err(EMFILE))
    case Socket(fd) => (t.(open := t.open + {fd}), Ret(ToI32(fd)))
    case SocketFails(e) => (t, Err(e))
    case Dup3(oldfd, newfd, fl) =>
      if oldfd !in t.open then (t, Err(EBADF))
      else (Table(t.open + {newfd}, t.flags[newfd := fl]), Ret(ToI32(newfd)))
    case DupFd(fd, newfd) =>
      if fd !in t.open then (t, Err(EBADF))
      else (Table(t.open + {newfd}, t.flags[newfd := Flags(t, fd)]), Ret(ToI32(newfd)))
    case DupFdFails(_) => (t, Err(EBADF))
    case GetFd(fd) =>
      if fd !in t.open then (t, Err(EBADF)) else (t, Ret(if HasCloexec(Flags(t, fd)) then 1 else 0))
    case SetFd(fd) =>
      if fd !in t.open then (t, Err(EBADF)) else (t.(flags := t.flags[fd := SetCloexec(Flags(t, fd))]), Ret(0))
    case GetFl(fd) => if fd !in t.open then (t, Err(EBADF)) else (t, Ret(Flags(t, fd)))
    case SetFl(fd, arg) =>
      if fd !in t.open then (t, Err(EBADF)) else (t.(flags := t.flags[fd := ToI32(arg)]), Ret(0))
    case FileLock(fd) => if fd !in t.open then (t, Err(EBADF)) else (t, Ret(0))
    case OtherCmd(fd) => if fd !in t.open then (t, Err(EBADF)) else (t, Panic)
    case Close(fd) =>
      if fd !in t.open then (t, Err(EBADF)) else (Table(t.open - {fd}, t.flags - {fd}), Ret(0))
  }

  /** The table after a sequence of calls from an empty start. */
  function Run(log: seq<Op>): Table {
    if log == [] then EMPTY else Apply(Run(log[..|log| - 1]), log[|log| - 1]).0
  }

  ghost predicate LegalLog(log: seq<Op>) {
    log != [] ==> LegalLog(log[..|log| - 1]) && Legal(Run(log[..|log| - 1]), log[|log| - 1])
  }

  // One descriptor's own history, without any table

  /** The number was made, and not closed since. */
  predicate IsOpen(log: seq<Op>, fd: int) {
    if log == [] then false else
    var before := log[..|log| - 1];
    match log[|log| - 1]
    case Open(f, _) => f == fd || IsOpen(before, fd)
    case Pipe(r, w, _) => fd == r || fd == w || IsOpen(before, fd)
    case Socket(f) => f == fd || IsOpen(before, fd)
    case Dup3(o, f, _) => (f == fd && IsOpen(before, o)) || IsOpen(before, fd)
    case DupFd(o, f) => (f == fd && IsOpen(before, o)) || IsOpen(before, fd)
    case Close(f) => f != fd && IsOpen(before, fd)
    case _ => IsOpen(before, fd)
  }

  /**
   The flags of one open number: what its last creation gave it (for F_DUPFD, what the source had at
   that moment), changed by the F_SETFD and F_SETFL calls on that number since. Nothing else counts.
   */
  function Replay(log: seq<Op>, fd: int): i32 {
    if log == [] then 0 else
    var before := log[..|log| - 1];
    match log[|log| - 1]
    case Open(f, fl) => if f == fd then fl else Replay(before, fd)
    case Pipe(r, w, fl) => if fd == r || fd == w then fl else Replay(before, fd)
    case Socket(f) => if f == fd then 0 else Replay(before, fd)
    case Dup3(o, f, fl) => if f == fd && IsOpen(before, o) then fl else Replay(before, fd)
    case DupFd(o, f) => if f == fd && IsOpen(before, o) then Replay(before, o) else Replay(before, fd)
    case SetFd(f) => if f == fd then SetCloexec(Replay(before, fd)) else Replay(before, fd)
    case SetFl(f, arg) => if f == fd then ToI32(arg) else Replay(before, fd)
    case _ => Replay(before, fd)
  }

  /** The flag table never has an entry for a number that is not open. */
  predicate InStep(t: Table) { t.flags.Keys <= t.open }

  lemma StepInStep(t: Table, op: Op)
    requires InStep(t) && Legal(t, op)
    ensures InStep(Apply(t, op).0)
  {
  }

  lemma {:induction false} RunInStep(log: seq<Op>)
    requires LegalLog(log)
    ensures InStep(Run(log))
  {
    if log != [] {
      RunInStep(log[..|log| - 1]);
      StepInStep(Run(log[..|log| - 1]), log[|log| - 1]);
    }
  }

  lemma {:induction false} RunOpen(log: seq<Op>, fd: int)
    ensures fd in Run(log).open <==> IsOpen(log, fd)
  {
    if log != [] {
      var before := log[..|log| - 1];
      RunOpen(before, fd);
      match log[|log| - 1]
      case Dup3(o, _, _) => RunOpen(before, o);
      case DupFd(o, _) => RunOpen(before, o);
      case _ =>
    }
  }

  /**
   After every sequential run, the flags the table reports for an open number are the replay of
   that number's own operations since it was last made.
   */
  lemma {:induction false} FlagsAreReplay(log: seq<Op>, fd: int)
    requires LegalLog(log) && IsOpen(log, fd)
    ensures Flags(Run(log), fd) == Replay(log, fd)
  {
    var before, op := log[..|log| - 1], log[|log| - 1];
    RunInStep(before);
    RunOpen(before, fd);
    if IsOpen(before, fd) {
      FlagsAreReplay(before, fd);
    }
    match op
    case Dup3(o, _, _) => RunOpen(before, o);
    case DupFd(o, _) =>
      RunOpen(before, o);
      if IsOpen(before, o) {
        FlagsAreReplay(before, o);
      }
    case _ =>
  }

  /** The numbers a call names, all of which the debugger has to know. */
  function Named(op: Op): set<int> {
    match op
    case Dup3(o, _, _) => {o}
    case DupFd(fd, _) => {fd}
    case DupFdFails(fd) => {fd}
    case GetFd(fd) => {fd}
    case SetFd(fd) => {fd}
    case GetFl(fd) => {fd}
    case SetFl(fd, _) => {fd}
    case FileLock(fd) => {fd}
    case OtherCmd(fd) => {fd}
    case Close(fd) => {fd}
    case _ => {}
  }

  /**
   What F_GETFL and F_GETFD report after any run is the replay of that number's own history, and a
   call on a number that is not open fails with EBADF and changes nothing.
   */
  lemma ReportsAreReplay(log: seq<Op>, fd: u32, op: Op)
    requires LegalLog(log) && fd in Named(op)
    ensures !IsOpen(log, fd) ==> Apply(Run(log), op) == (Run(log), Err(EBADF))
    ensures IsOpen(log, fd) && op.GetFl? ==> Apply(Run(log), op) == (Run(log), Ret(Replay(log, fd)))
    ensures IsOpen(log, fd) && op.GetFd? ==>
              Apply(Run(log), op) == (Run(log), Ret(if Bit(ToU32(Replay(log, fd)), 19) then 1 else 0))
  {
    RunOpen(log, fd);
    if IsOpen(log, fd) {
      FlagsAreReplay(log, fd);
      CloexecBit(Replay(log, fd));
    }
  }

  /**
   What the successful calls return. One that makes a descriptor returns its number and opens just that one; the
   debugger's number was unused, except for dup3, where the caller names it. The calls that only change or drop
   something return 0, and nothing else becomes open.
   */
  lemma ResultsNumber(t: Table, op: Op)
    requires Legal(t, op) && Apply(t, op).1.Ret?
    ensures var (t', r) := Apply(t, op);
            && (op.Open? || op.Socket? || op.DupFd? ==> exists x :: x !in t.open && t'.open == t.open + {x} && r.v == ToI32(x))
            && (op.Dup3? ==> t'.open == t.open + {op.newfd} && r.v == ToI32(op.newfd))
            && (op.Pipe? ==> |t'.open| == |t.open| + 2 && t.open < t'.open && r.v == 0)
            && (op.SetFd? || op.SetFl? || op.FileLock? ==> t'.open == t.open && r.v == 0)
            && (op.Close? ==> t'.open == t.open - {op.fd} && r.v == 0)
  {
    if op.Open? || op.Socket? {
      assert op.made !in t.open && Apply(t, op).0.open == t.open + {op.made} && Apply(t, op).1.v == ToI32(op.made);
    } else if op.DupFd? {
      assert op.made !in t.open && Apply(t, op).0.open == t.open + {op.made} && Apply(t, op).1.v == ToI32(op.made);
    } else if op.Pipe? {
      assert t.open + {op.r, op.w} == t.open + {op.r} + {op.w};
    }
  }

  /** A number that has just been made by `socket` shows no flags, whatever it was used for before. */
  lemma {:induction false} FreshSocketClean(log: seq<Op>, fd: int)
    requires LegalLog(log + [Socket(fd)])
    ensures Flags(Run(log + [Socket(fd)]), fd) == 0 && fd !in Run(log).flags
  {
    var after := log + [Socket(fd)];
    assert after[..|after| - 1] == log && after[|after| - 1] == Socket(fd);
    RunInStep(log);
  }

  /** The numbers whose flags a call may change. */
  function Targets(op: Op): set<int> {
    match op
    case Open(fd, _) => {fd}
    case Pipe(r, w, _) => {r, w}
    case Dup3(_, newfd, _) => {newfd}
    case DupFd(_, newfd) => {newfd}
    case SetFd(fd) => {fd}
    case SetFl(fd, _) => {fd}
    case Close(fd) => {fd}
    case _ => {}
  }

  /** Operations on other descriptors never change the flags of this one. */
  lemma OthersUntouched(t: Table, op: Op, fd: int)
    requires fd !in Targets(op)
    ensures Flags(Apply(t, op).0, fd) == Flags(t, fd) && (fd in Apply(t, op).0.flags <==> fd in t.flags)
  {
  }

  datatype Cmd = F_DUPFD | F_GETFD | F_SETFD | F_GETFL | F_SETFL | F_LOCKS | F_OTHER

  function FcntlOp(fd: u32, cmd: Cmd, arg: int, unused: int, dupFails: bool): Op {
    match cmd
    case F_DUPFD => if dupFails then DupFdFails(fd) else DupFd(fd, unused)
    case F_GETFD => GetFd(fd)
    case F_SETFD => SetFd(fd)
    case F_GETFL => GetFl(fd)
    case F_SETFL => SetFl(fd, arg)
    case F_LOCKS => FileLock(fd)
    case F_OTHER => OtherCmd(fd)
  }

  /** The system calls, on the flag map they share. `open` stands for the debugger's descriptor table. */
  class Fcntl {
    var flags: map<int, i32>
    var open: set<int>

    function View(): Table
      reads this
    {
      Table(open, flags)
    }

    constructor ()
      ensures View() == EMPTY
    {
      flags, open := map[], {};
    }

    /** `open` and `openat`, once the file has been found or an error `e` come up. */
    method OpenFile(found: bool, e: Errno, fd: int, fl: i32) returns (r: Result)
      requires found ==> Legal(View(), Open(fd, fl))
      modifies this
      ensures (View(), r) == Apply(old(View()), if found then Open(fd, fl) else OpenFails(e))
      ensures found ==> r == Ret(ToI32(fd)) && open == old(open) + {fd} && flags == old(flags)[fd := fl]
      ensures !found ==> r == Err(e) && open == old(open) && flags == old(flags)
      ensures InStep(old(View())) ==> InStep(View())
    {
      if !found {
        return Err(e);
      }
      open := open + {fd};
      flags := flags[fd := fl];
      r := Ret(ToI32(fd));
    }

    /** `pipe2`; `fds` is what it writes to the guest, the reading end first. */
    method Pipe2(made: bool, rfd: int, wfd: int, fl: i32) returns (r: Result, fds: seq<i32>)
      requires made ==> Legal(View(), Pipe(rfd, wfd, fl))
      modifies this
      ensures (View(), r) == Apply(old(View()), if made then Pipe(rfd, wfd, fl) else PipeFails)
      ensures made ==> r == Ret(0) && fds == [ToI32(rfd), ToI32(wfd)]
      ensures made ==> open == old(open) + {rfd, wfd} && flags == old(flags)[rfd := fl][wfd := fl]
      ensures !made ==> r == Err(EMFILE) && fds == [] && open == old(open) && flags == old(flags)
      ensures InStep(old(View())) ==> InStep(View())
    {
      if !made {
        return Err(EMFILE), [];
      }
      open := open + {rfd};
      open := open + {wfd};
      flags := flags[rfd := fl];
      flags := flags[wfd := fl];
      r, fds := Ret(0), [ToI32(rfd), ToI32(wfd)];
      assert old(open) + {rfd} + {wfd} == old(open) + {rfd, wfd};
    }

    /** `socket` makes a descriptor and writes no flags. */
    method NewSocket(made: bool, e: Errno, fd: int) returns (r: Result)
      requires made ==> Legal(View(), Socket(fd))
      modifies this
      ensures (View(), r) == Apply(old(View()), if made then Socket(fd) else SocketFails(e))
      ensures made ==> r == Ret(ToI32(fd)) && open == old(open) + {fd} && flags == old(flags)
      ensures !made ==> r == Err(e) && open == old(open) && flags == old(flags)
      ensures InStep(old(View())) ==> InStep(View()) && (made ==> Flags(View(), fd) == 0)
    {
      if !made {
        return Err(e);
      }
      open := open + {fd};
      r := Ret(ToI32(fd));
    }

    method Dup3To(oldfd: u32, newfd: u32, fl: i32) returns (r: Result)
      modifies this
      ensures (View(), r) == Apply(old(View()), Dup3(oldfd, newfd, fl))
      ensures oldfd in old(open) ==>
                r == Ret(ToI32(newfd)) && open == old(open) + {newfd} && flags == old(flags)[newfd := fl]
      ensures oldfd !in old(open) ==> r == Err(EBADF) && open == old(open) && flags == old(flags)
      ensures InStep(old(View())) ==> InStep(View())
    {
      if oldfd !in open {
        return Err(EBADF);
      }
      open := open + {newfd};
      flags := flags[newfd := fl];
      r := Ret(ToI32(newfd));
    }

    /** `fcntl`; `unused` is the number the debugger would give to a duplicate. */
    method Call(fd: u32, cmd: Cmd, arg: int, unused: int, dupFails: bool) returns (r: Result)
      requires Legal(View(), FcntlOp(fd, cmd, arg, unused, dupFails))
      modifies this
      ensures (View(), r) == Apply(old(View()), FcntlOp(fd, cmd, arg, unused, dupFails))
      ensures fd !in old(open) || (cmd.F_DUPFD? && dupFails) ==> r == Err(EBADF) && open == old(open) && flags == old(flags)
      ensures fd in old(open) ==>
                var was := if fd in old(flags) then old(flags)[fd] else 0;
                match cmd
                case F_DUPFD =>
                  !dupFails ==> r == Ret(ToI32(unused)) && open == old(open) + {unused} && flags == old(flags)[unused := was]
                case F_GETFD => r == Ret(if Bit(ToU32(was), 19) then 1 else 0) && open == old(open) && flags == old(flags)
                case F_SETFD => r == Ret(0) && open == old(open) && fd in flags && Bit(ToU32(flags[fd]), 19)
                case F_GETFL => r == Ret(was) && open == old(open) && flags == old(flags)
                case F_SETFL => r == Ret(0) && open == old(open) && flags == old(flags)[fd := ToI32(arg)]
                case F_LOCKS => r == Ret(0) && open == old(open) && flags == old(flags)
                case F_OTHER => r == Panic && open == old(open) && flags == old(flags)
      ensures InStep(old(View())) ==> InStep(View())
    {
      if fd !in open {
        return Err(EBADF);
      }
      var flag := if fd in flags then flags[fd] else 0;
      CloexecBit(flag);
      CloexecBit(SetCloexec(flag));
      match cmd {
        case F_DUPFD =>
          if dupFails {
            return Err(EBADF);
          }
          open := open + {unused};
          flags := flags[unused := flag];
          r := Ret(ToI32(unused));
        case F_GETFD => r := Ret(if HasCloexec(flag) then 1 else 0);
        case F_SETFD =>
          flags := flags[fd := SetCloexec(flag)];
          r := Ret(0);
        case F_GETFL => r := Ret(flag);
        case F_SETFL =>
          flags := flags[fd := ToI32(arg)];
          r := Ret(0);
        case F_LOCKS => r := Ret(0);
        case F_OTHER => r := Panic;
      }
    }

    method CloseFd(fd: u32) returns (r: Result)
      modifies this
      ensures (View(), r) == Apply(old(View()), Close(fd))
      ensures fd in old(open) ==> r == Ret(0) && open == old(open) - {fd} && flags == old(flags) - {fd}
      ensures fd !in old(open) ==> r == Err(EBADF) && open == old(open) && flags == old(flags)
      ensures InStep(old(View())) ==> InStep(View()) && fd !in flags
    {
      if fd !in open {
        return Err(EBADF);
      }
      open := open - {fd};
      flags := flags - {fd};
      r := Ret(0);
    }
  }
}
