# A verified model of the microdbg Linux kernel layer

The Go package emulates a Linux kernel for guest programs. This project models the parts of it that
keep state and proves what they promise, in Dafny 4.11. `dafny verify dfyconfig.toml` checks all of it.

**Futex** (`kernel/futex.go`). `FutexTable` holds the two reference-counted tables as a class whose entry
objects are updated in place; its methods are tied to functions on table values. `FutexProtocol` is the
system call as an interleaved step system over those functions: any number of threads, a program counter
each, guest memory that changes at any time, and steps for everything that the lock and the channels make
indivisible. Go's panics are steps too. `FutexInvariant` proves what every step keeps, `FutexRuns` and
`FutexSafety` what holds of whole runs, `FutexQuiet` what a wake returns when nothing interferes, and
`FutexReach` which waiters a wake is sure to reach, and `FutexProgress` who can move and what a call by itself
returns.

**Variadic argument readers** (`gcc/arm64/va.go`, `gcc/x86_64/va.go`, `gcc/std.go`). Classes whose fields
walk over the argument areas. `VaMemory` defines the flat byte stream that a split area stands for;
`VaAbi` says where a caller puts its arguments and proves the round trip; `VaArm64`, `VaX86` and `VaStd`
are the readers.

**Descriptor flags and vectored write** (`kernel/fcntl.go`). `Descriptors` keeps the flag map next to the
debugger's descriptor numbers; `Writev` is the write loop.

**Clone and reaper** (`kernel/sched.go`). `CloneReaper` is a step system of clone calls, tasks, reapers and
the pid table.

## Results

- Futex reference counts are exact in every reachable state, and every registered waiter holds the
  channels now in the tables (`CountsExact`).
- Deliveries are conserved over every run, and no more waits return 0 than wakes report
  (`DeliveriesConserved`, `NoExcessWakeups`).
- A wait returns 0 only for a value that a WAKE on the same word read during its own call, or for its own
  word read again (`NoFalseSuccess`); every error has its reason in the call (`ErrorsExplained`).
- The call that returns is the call that was made, with all its arguments (`CallAnswered`). No call gets stuck
  (`NobodyStuck`), and what a wait or a WAKE can return when nobody else acts is exactly determined
  (`WaitAloneIff`, `LoopAloneIff`, `WakeAloneIff`).
- With nobody interfering, WAKE and WAKE_BITSET return exactly min(val, waiters) (`WakeExact`,
  `WakeBitsExact`), for every interleaving and every bucket order, and everybody they wake returns 0.
- Both 64-bit readers agree with the va_arg rules of their ABIs, and running them over any list of small
  arguments that a caller lays out returns the list and stops behind it (`ExtractLaidOut`); the 32-bit
  reader does so for every list (`ExtractPushed`). How a read is cut into parts makes no difference.
- The flags reported for a descriptor are the replay of that descriptor's own history.
- Every cloned task is closed exactly once, and from every reachable state every call and reaper can finish.

Some things one would expect do not hold of the code, and the project says exactly when they do:

- A wake-up can be lost: because the word is read before the waiter registers (`LostWakeup`), and because a
  wake may hold a channel whose entry is gone, so that a waiter parked since then has another one
  (`StaleLoss`). When a WAKE begins, a thread is sure to get a delivery if and only if it is asleep at the
  address at that moment, nobody else there would take deliveries again and again, and `val` covers all who
  can take one (`ReachedIffSure`).
- Close can make the program panic. It can if and only if some thread is still about to register, or
  holds a word channel with a send to make on it (`PanicIffExposed`; `LateRegistration` and `LateSend` are
  such runs).
- The pid is the task identifier cut to 32 bits, so two live tasks can share a table key (`AliasedPids`).
  The table is right throughout a run if and only if no stored pid is already taken (`TableRightIff`);
  identifiers below 2^32 are enough (`SmallIdsTable`).
- An integer argument of more than 8 bytes is not always read as the ABI says. The readers take it from the
  stream as it comes, so they are right exactly if the ABI takes it from the same area in one piece, without
  rounding up for a 16-byte alignment first (`WideAgreesIff`). It goes wrong when the argument would cross
  from the registers to the stack (`WideSplit`), and on x86-64 for everything above 16 bytes while registers
  are left (`LargeInRegisters`).
- Skipping forwards equals reading and discarding, and skipping backwards undoes a read, exactly when one
  area is enough (`SkipAgreesIff`, `SkipSplit`).

## Assumptions

- Go: a non-blocking send on an unbuffered channel succeeds exactly when a receiver is parked on it, and
  which one is arbitrary. One delivery takes a waiter out of its whole select. A closed channel is always
  ready to receive from, and sending on it panics. A map that nobody changes is ranged over once per key,
  in any order. A writer gets the lock only when no reader holds it.
- A timeout may fire at any moment for a wait that has one.
- `debugger.Align` rounds up to the least multiple. Decoding a scalar of at most 8 bytes makes one `Read`,
  a pointer one `ReadStream`, a float or double one `ReadDouble`.
- Reading guest memory fails unless every byte is mapped and the range ends within the address space.
- The debugger gives a new or duplicated descriptor an unused number, and closing gives the number back.
- Task identifiers are unique among tasks that are not closed, and nobody else closes these tasks.

## Model

| member | source | states |
|---|---|---|
| `FutexTable.Futex.GetAwait` | kernel/futex.go:203-210 | finds the channel of an address exactly when it has an entry |
| `FutexTable.Futex.AddAwait` | kernel/futex.go:212-222 | bumps the count of an existing entry in place or makes one with a new channel; panics exactly when the maps are nil |
| `FutexTable.Futex.AddBitAwait` | kernel/futex.go:237-256 | registers at the address first and at the mask second, with both channels returned |
| `FutexTable.Futex.DelAwait` | kernel/futex.go:224-235 | lowers the count and drops the entry at 0; a missing key changes nothing |
| `FutexTable.Futex.DelBitAwait` | kernel/futex.go:258-273 | undoes both registrations |
| `FutexTable.Futex.Dtor` | kernel/futex.go:33-44 | closes every channel of both tables, none of them twice, and empties the tables |
| `FutexTable.MeetsBits` | kernel/futex.go:181-183 | the mask test holds exactly when one of the 32 bits is set in both masks |
| `FutexInvariant.AdmitTable` | kernel/futex.go:212-256 | a registration adds one to exactly the counts of its keys, keeps every stored channel and hands out the stored ones |
| `FutexInvariant.DismissTable` | kernel/futex.go:224-273 | a deregistration takes one from exactly those counts and keeps every other entry's channel; with nil maps it does nothing |
| `FutexInvariant.IncCounts` | kernel/futex.go:117-118 | the wrapping `i != count` test ends the loop exactly at `val` read as unsigned |
| `FutexInvariant.StepInv` | kernel/futex.go:66-196 | every step of every thread keeps the invariant on tables, tickets, wakers and accounts |
| `FutexRuns.CallBegun` | kernel/futex.go:46-66 | whatever a thread is doing or has returned from, it began with exactly these arguments: address, count, mask, kind and timeout |
| `FutexRuns.CallAnswered` | kernel/futex.go:46-66 | from the beginning of a call to its return and until the next one, the thread is in that call with its own arguments |
| `FutexRuns.CountsExact` | kernel/futex.go:212-273 | before Close an entry exists exactly when somebody is registered under its key, its count is their number, and each registered waiter holds the stored channels |
| `FutexRuns.DeliveriesConserved` | kernel/futex.go:91-125 | counts reported plus counters running equal the rendezvous of the run; a thread never receives more often than it parked |
| `FutexRuns.NoExcessWakeups` | kernel/futex.go:153-196 | before Close at most as many waits have returned 0 as wakes have reported or are counting |
| `FutexRuns.SendersSourced` | kernel/futex.go:107-120 | the value in a send loop was read from the word of that address during the same call |
| `FutexRuns.NoFalseSuccess` | kernel/futex.go:91-173 | a wait that returned 0 got a differing value from a WAKE on its own address, or found its own word different when it read it again |
| `FutexRuns.WaitsOnMatch` | kernel/futex.go:67-89 | a thread registers and waits only after finding `val` in the word in the same call |
| `FutexRuns.ErrorsExplained` | kernel/futex.go:67-100 | a failed wait has a step of its own that justifies the error: EAGAIN, EFAULT, ETIMEDOUT or EPERM |
| `FutexRuns.WakeErrors` | kernel/futex.go:106-116 | a WAKE fails only with EFAULT, on a word that could not be read in the same call, a WAKE_BITSET never |
| `FutexSafety.DeliveriesAimed` | kernel/futex.go:180-187 | every delivery joins a wake call and a wait call whose arguments fit: the same address, or masks with a bit in common |
| `FutexSafety.StaleChannelReachesNobody` | kernel/futex.go:203-235 | once its entry is removed a channel is never waited on again and no waker holding it reaches anybody |
| `FutexSafety.WakeCountExact` | kernel/futex.go:117-125 | for every 32-bit `val` that a wake call is made with, it makes at most `val` deliveries and its result read as unsigned is their number |
| `FutexSafety.WakeTerminates` | kernel/futex.go:176-196 | each step of a wake uses up a measure that no other thread's step gives back |
| `FutexSafety.WakeBounded` | kernel/futex.go:117-125 | along every run that has not panicked, a wake takes at most as many steps of its own as that measure says, `val` + 3 for a WAKE, even if waiters park again |
| `FutexSafety.WakeNeverBlocks` | kernel/futex.go:118-123 | a wake always has a step of its own to take, and that step is a panic exactly when the next send is on a closed channel |
| `FutexSafety.NoBitOrClosePanic` | kernel/futex.go:178-190 | no WAKE_BITSET ever sends on a closed channel and no channel is closed twice |
| `FutexSafety.NoPanicBeforeClose` | kernel/futex.go:33-44 | a panic needs a Close before it |
| `FutexSafety.PanicIffExposed` | kernel/futex.go:107-120 | after Close some continuation panics if and only if a thread is about to register or has a send to make on a closed channel |
| `FutexSafety.LateRegistration` | kernel/futex.go:212-222 | a run that panics because Close comes between the check and the registration |
| `FutexSafety.LateSend` | kernel/futex.go:107-120 | a run that panics because Close comes between the lookup and the send |
| `FutexSafety.LateDeregister` | kernel/futex.go:224-235 | after Close a deregistration changes nothing |
| `FutexSafety.ClosedWakes` | kernel/futex.go:96-100 | after Close a waiter in its select can always receive from its word channel, a bitset waiter from both |
| `FutexSafety.CloseStrandsNobody` | kernel/futex.go:158-173 | after Close every registered waiter can return from its call by at most three steps of its own, once the lock has been given back, and with EPERM if it was in its select |
| `FutexQuiet.QuietOther` | kernel/futex.go:91-105 | an undisturbing step of another thread wakes no sleeper of the group and puts nobody to sleep |
| `FutexQuiet.WokenForGood` | kernel/futex.go:91-105 | in a quiet run a sleeper of the group sleeps on, is on its way to returning 0, or has returned 0 |
| `FutexQuiet.WakeExact` | kernel/futex.go:106-125 | with k settled waiters asleep when it is called, futex(a, FUTEX_WAKE, n) returns min(n, k) and leaves k - min(n, k) asleep, and the others are returning or have returned 0 |
| `FutexQuiet.WakeBitsExact` | kernel/futex.go:175-196 | with k settled bitset waiters asleep whose masks have a bit in common with the mask of the call, WAKE_BITSET(n) returns min(n, k) and leaves k - min(n, k) asleep, for every bucket order, and the others are returning or have returned 0 |
| `FutexReach.LostWakeup` | kernel/futex.go:69-89 | a run in which a wake-up between the check and the registration is lost |
| `FutexReach.StaleLoss` | kernel/futex.go:107-123 | a run in which a waiter is parked before the word changes and before the WAKE reads it, and is missed because the WAKE holds the channel of a removed entry |
| `FutexReach.SureReached` | kernel/futex.go:106-125 | a thread asleep at the address when a WAKE begins, with `val` covering all single takers there, gets a delivery in every continuation in which nobody else interferes with it |
| `FutexReach.ReachedIffSure` | kernel/futex.go:91-125 | with the lock free, every such continuation of futex(a, FUTEX_WAKE, n) delivers to the thread if and only if it is asleep at the address when the call is made, nobody else there goes back to sleep on the present word, and `n` covers all who can take a delivery |
| `FutexProgress.NobodyStuck` | kernel/futex.go:66-196 | in every reachable state an idle thread can make any call, a sleeper can move by itself exactly if it has a timeout or Close has come, every other thread can move by itself or waits for a lock holder that can, and Close can come when the lock is free |
| `FutexProgress.WaitAloneIff` | kernel/futex.go:67-104 | exactly which results a WAIT or WAIT_BITSET can come to when nobody else acts: EFAULT, EAGAIN, or with a timeout ETIMEDOUT or EFAULT |
| `FutexProgress.LoopAloneIff` | kernel/futex.go:153-173 | exactly which results a waiter in its loop can come to when nobody else acts: 0 or EFAULT if it was woken for that, else only its timeout |
| `FutexProgress.WakeAloneIff` | kernel/futex.go:106-125 | when nobody else acts a WAKE returns EFAULT if somebody is registered and the word cannot be read, and else the smaller of `n` and the sleepers |
| `VaMemory.StreamSplit` | gcc/arm64/va.go:63-81 | a read cut in two gives the same bytes, and succeeds exactly when the whole read does, up to wrap-around |
| `VaMemory.ChunksAgree` | gcc/x86_64/va.go:66-85 | any way of cutting a read of the stream into chunks ends at the same place with the same bytes |
| `VaMemory.SameReadsIff` | gcc/x86_64/va.go:66-85 | reading the stream equals reading at one address, in every memory, exactly when all byte addresses are the same |
| `VaAbi.SlotsApart` | gcc/arm64/va.go:63-101 | two arguments never share a slot, with overflow of both banks interleaved on one stack |
| `VaAbi.LayOutLaysOut` | gcc/x86_64/va.go:66-105 | storing the arguments one after the other destroys none of them |
| `VaAbi.ReadsBack` | gcc/x86_64/va.go:66-105 | the slot rule finds exactly the arguments that are laid out, in order |
| `VaAbi.RoundTrip` | gcc/arm64/va.go:34-101 | laying out any list of scalars, pointers and doubles and reading it is the identity |
| `VaArm64.MovedStream` | gcc/arm64/va.go:63-81 | moving the fields moves the stream, with the sign-extended wrapping address |
| `VaArm64.MovedAdds` | gcc/arm64/va.go:63-81 | a read cut in two leaves the same fields |
| `VaArm64.MovedFolds` | gcc/arm64/va.go:63-81 | a read cut into any parts leaves the same fields |
| `VaArm64.VaArgTakes` | gcc/arm64/va.go:34-44 | the AAPCS64 rule takes the next slot of the bank, keeps the list aligned and moves no offset past its limit |
| `VaArm64.SmallReadAgrees` | gcc/arm64/va.go:40-81 | a read of at most 8 bytes never splits, and reads and ends where AAPCS64 says |
| `VaArm64.DoubleAgrees` | gcc/arm64/va.go:91-101 | a double is read, and the cursor left, where AAPCS64 says |
| `VaArm64.ExtractAgrees` | gcc/arm64/va.go:34-44 | on an aligned list of small arguments, what Extract returns and where it leaves the cursor is what successive AAPCS64 va_arg calls give |
| `VaArm64.ExtractRoundTrip` | gcc/arm64/va.go:34-101 | extracting arguments laid out by the ABI gives them back and ends behind the last |
| `VaArm64.SkipAgreesIff` | gcc/arm64/va.go:54-61 | for every int: skipping forwards equals reading and discarding exactly when it stays in the registers or none are left; skipping backwards undoes a read exactly when that read left registers over or found none |
| `VaArm64.SkipSplit` | gcc/arm64/va.go:54-61 | a cursor with one register left at which skipping 16 bytes goes wrong |
| `VaArm64.WideAgreesIff` | gcc/arm64/va.go:63-81 | an integer type or composite of 9 to 16 bytes, 8- or 16-byte aligned, is read as AAPCS64 says in every memory exactly when it is taken from one area that needs no rounding (or the areas overlap) |
| `VaArm64.WideSplit` | gcc/arm64/va.go:70-79 | a cursor with one register left at which a 16-byte argument is read wrongly |
| `VaArm64.List.Read` | gcc/arm64/va.go:63-81 | fills the buffer with the next bytes of the stream; says when it fails and where the cursor then is |
| `VaArm64.List.ReadParts` | gcc/arm64/va.go:63-81 | successive reads of any sizes give the bytes of one read of their sum and leave the cursor there |
| `VaArm64.List.ReadDouble` | gcc/arm64/va.go:91-101 | reads the next vector slot or the stack |
| `VaArm64.List.ReadPointer` | gcc/arm64/va.go:107-114 | reads the next 8 bytes of the stream; the cursor moves as in Read, also on failure |
| `VaArm64.List.Skip` | gcc/arm64/va.go:54-61 | moves within one area only |
| `VaArm64.List.ExtractOne` | gcc/arm64/va.go:34-44 | decodes any argument and settles the cursor only on success; on an aligned list a small argument is found where one va_arg call finds it |
| `VaArm64.List.Extract` | gcc/arm64/va.go:34-44 | values, failure and final cursor for every list; on an aligned list of small arguments those of successive va_arg calls |
| `VaArm64.ExtractLaidOut` | gcc/arm64/va.go:34-101 | running Extract over memory that a caller has laid out returns the arguments and stops behind the last one |
| `VaX86.MovedStream` | gcc/x86_64/va.go:66-85 | moving the fields moves the stream |
| `VaX86.MovedAdds` | gcc/x86_64/va.go:66-85 | a read cut in two leaves the same fields |
| `VaX86.MovedFolds` | gcc/x86_64/va.go:66-85 | a read cut into any parts leaves the same fields |
| `VaX86.VaArgTakes` | gcc/x86_64/va.go:13-17 | the psABI rule takes the next slot of the bank, keeps the list aligned and moves no offset past its limit |
| `VaX86.StartSlots` | gcc/x86_64/va.go:13-17 | a list as va_start leaves it has six general and eight vector slots |
| `VaX86.DoubleSlots` | gcc/x86_64/va.go:95-105 | the code reads double j < 8 at 48 + 16 * j in the save area, and the next one in the overflow area |
| `VaX86.GeneralSlots` | gcc/x86_64/va.go:66-85 | with j <= 6 general registers used the code reads on at 8 * j in the save area, with 48 - 8 * j bytes left there |
| `VaX86.SmallReadAgrees` | gcc/x86_64/va.go:66-85 | a read of at most 8 bytes never splits, and reads and ends where the psABI says |
| `VaX86.DoubleAgrees` | gcc/x86_64/va.go:95-105 | a double is read, and the cursor left, where the psABI says |
| `VaX86.ExtractAgrees` | gcc/x86_64/va.go:37-47 | on an aligned list of small arguments, what Extract returns and where it leaves the cursor is what successive psABI va_arg calls give |
| `VaX86.ExtractRoundTrip` | gcc/x86_64/va.go:37-105 | extracting arguments laid out by the ABI gives them back and ends behind the last |
| `VaX86.SkipAgreesIff` | gcc/x86_64/va.go:57-64 | for every int: skipping forwards equals reading and discarding exactly when it stays in the registers or none are left; skipping backwards undoes a read exactly when that read left registers over or found none |
| `VaX86.SkipSplit` | gcc/x86_64/va.go:57-64 | a cursor with one register left at which skipping 16 bytes goes wrong |
| `VaX86.WideAgreesIff` | gcc/x86_64/va.go:66-85 | an integer type or aggregate of more than 8 bytes, 8- or 16-byte aligned, is read as the psABI says in every memory exactly when it has at most 16 bytes and two registers are left, or no register is left and the overflow area needs no rounding (or the areas overlap) |
| `VaX86.WideSplit` | gcc/x86_64/va.go:73-83 | a cursor with one register left at which a 16-byte argument is read wrongly |
| `VaX86.LargeInRegisters` | gcc/x86_64/va.go:73-75 | a cursor with all registers left at which a 24-byte argument is read wrongly |
| `VaX86.List.Read` | gcc/x86_64/va.go:66-85 | fills the buffer with the next bytes of the stream; says when it fails and where the cursor then is |
| `VaX86.List.ReadParts` | gcc/x86_64/va.go:66-85 | successive reads of any sizes give the bytes of one read of their sum and leave the cursor there |
| `VaX86.List.ReadDouble` | gcc/x86_64/va.go:95-105 | reads the next vector slot while the offset is below 176, then the overflow area |
| `VaX86.List.ReadPointer` | gcc/x86_64/va.go:111-118 | reads the next 8 bytes of the stream; the cursor moves as in Read, also on failure |
| `VaX86.List.Skip` | gcc/x86_64/va.go:57-64 | moves within one area only |
| `VaX86.List.ExtractOne` | gcc/x86_64/va.go:37-47 | decodes any argument and settles the cursor only on success; on an aligned list a small argument is found where one va_arg call finds it |
| `VaX86.List.Extract` | gcc/x86_64/va.go:37-47 | values, failure and final cursor for every list; on an aligned list of small arguments those of successive va_arg calls |
| `VaX86.ExtractLaidOut` | gcc/x86_64/va.go:37-105 | running Extract over memory that a caller has laid out returns the arguments and stops behind the last one |
| `VaStd.FlatRoundTrip` | gcc/std.go:26-82 | arguments pushed at running sums of sizes rounded up to 4 are read back, and the pointer ends behind them, for every list |
| `VaStd.ZeroExtended` | gcc/std.go:75-82 | a pointer narrower than the variable it is read into keeps its value |
| `VaStd.List.Read` | gcc/std.go:50-55 | reads at the pointer and moves it on, also on failure |
| `VaStd.List.ReadPointer` | gcc/std.go:75-82 | a pointer of the list's size, zero-extended; reports the overrun of a size above 8 |
| `VaStd.List.ExtractOne` | gcc/std.go:26-82 | a pointer takes exactly the list's size and is padded with zeros to 8 bytes, a double takes 8 and a scalar its own size; the next argument is at the least multiple of 4 behind |
| `VaStd.List.Extract` | gcc/std.go:26-35 | the same for each argument of every list, one behind the other; reports exactly when a pointer overruns its variable |
| `VaStd.ExtractPushed` | gcc/std.go:26-82 | running Extract over pushed arguments returns them, pointers padded with zeros, and stops behind the last one |
| `VaStd.NewStdVaList` | gcc/std.go:19-24 | refuses a null pointer and a zero size |
| `Descriptors.SetCloexec` | kernel/fcntl.go:163-167 | sets the close-on-exec bit and keeps every other bit |
| `Descriptors.CloexecBit` | kernel/fcntl.go:155-159 | close-on-exec is bit 19 of the flags |
| `Descriptors.RunInStep` | kernel/fcntl.go:105-177 | in every sequential run the flag table's keys are open descriptors |
| `Descriptors.RunOpen` | kernel/fcntl.go:280-308 | a number is open exactly when its own history says so |
| `Descriptors.FlagsAreReplay` | kernel/fcntl.go:105-177 | the flags of an open number are the replay of its own operations since it was last made |
| `Descriptors.ReportsAreReplay` | kernel/fcntl.go:138-177 | F_GETFL and F_GETFD report that replay; a number that is not open gives EBADF and changes nothing |
| `Descriptors.ResultsNumber` | kernel/fcntl.go:105-177 | a call that makes a descriptor opens just that number and returns it, for dup3 the target; the other successful calls return 0 |
| `Descriptors.FreshSocketClean` | kernel/socket.go:100-101 | a number just made by socket shows no flags of an earlier life |
| `Descriptors.OthersUntouched` | kernel/fcntl.go:105-177 | a call never changes the flags of a number it is not about |
| `Descriptors.Fcntl.OpenFile` | kernel/fcntl.go:234-238 | returns the new number and records its flags, or fails and changes nothing |
| `Descriptors.Fcntl.Pipe2` | kernel/fcntl.go:293-308 | records the flags of both ends, writes both numbers to the guest and returns 0 |
| `Descriptors.Fcntl.NewSocket` | kernel/socket.go:94-101 | returns a new number whose flags read as 0 |
| `Descriptors.Fcntl.Dup3To` | kernel/fcntl.go:105-115 | gives the target the flags of the call and returns the target, or EBADF |
| `Descriptors.Fcntl.Call` | kernel/fcntl.go:117-184 | result and new state of every command, with the new number for F_DUPFD, including the panic on an unknown one |
| `Descriptors.Fcntl.CloseFd` | kernel/fcntl.go:280-291 | drops the number and its flags, or EBADF |
| `Writev.WriteVector` | kernel/fcntl.go:366-391 | on success the file gains all segments and the result is their total length; else the earlier segments whole and a prefix of the failing one; a negative count panics |
| `Writev.GainedIsPrefix` | kernel/fcntl.go:378-390 | what the file gains is a prefix of the joined segments, all of it on success |
| `CloneReaper.VforkBit` | kernel/sched.go:22-69 | the vfork path is for bit 14 of the flags |
| `CloneReaper.ClosedExactlyOnce` | kernel/sched.go:26-80 | each task is closed at most once, exactly once when call and reaper are done; which result a call returns and when, by bit 14 of the flags it was made with |
| `CloneReaper.PidFromFork` | kernel/sched.go:65-80 | a returned pid is the identifier that the fork gave the task, cut to 32 bits |
| `CloneReaper.ThreadCreated` | kernel/sched.go:69-80 | a call with flags 0x3D0F00 that has returned the pid while the task still runs |
| `CloneReaper.VforkReturnsLate` | kernel/sched.go:69-72 | with flags 0x4000 no pid is returned before the task has ended and been closed |
| `CloneReaper.StartFails` | kernel/sched.go:39-64 | a call whose task cannot be set up or started returns EAGAIN and closes it |
| `CloneReaper.CanFinish` | kernel/sched.go:26-80 | from every reachable state a call and its reaper can come to their end, with a forked task closed |
| `CloneReaper.TableStep` | kernel/sched.go:73-78 | a step keeps the pid table right exactly when it does not store a taken pid |
| `CloneReaper.TableRightIff` | kernel/sched.go:65-78 | the table is right throughout a run if and only if no stored pid is taken |
| `CloneReaper.SmallIdsTable` | kernel/sched.go:65-78 | with identifiers below 2^32 the table is right throughout every run, also when pids are reused |
| `CloneReaper.DeletesOwnEntry` | kernel/sched.go:74-78 | a reaper removes its own entry and no other |
| `CloneReaper.AliasedPids` | kernel/sched.go:65-76 | a run with identifiers 2^32 apart in which a reaper removes another task's entry |

## Left out

- The wait and send loops of the futex call are steps of the protocol, not loops of a method, because other threads run between two rounds.
- FUTEX_CMP_REQUEUE panics and every other futex command returns ENOSYS; decoding the command word is not modelled.
- Real time: a timeout has no length.
- The shared errno field: one for all threads, so nothing useful holds of it under concurrency; a result carries its own error.
- VaArm64.List.ExtractOne: a scalar is decoded by one read; the decoder, which decides how it cuts larger values into reads, is not part of this model, and `ReadParts` says that the cut makes no difference.
- VaX86.List.ExtractOne: the same.
- VaArm64.WideAgreesIff: a composite of more than 16 bytes is passed by a pointer under AAPCS64, which a caller of this reader has to ask for as a pointer; homogeneous floating-point aggregates are not modelled.
- VaX86.WideAgreesIff: aggregates with parts of class SSE are not modelled.
- VaStd.List.Extract: nothing is said of what happens after a pointer larger than 8 bytes was written past the 8-byte variable of the source.
- FutexReach.ReachedIffSure: starts with no WAKE_BITSET holding the lock, since nobody can register while one does; `SureReached` holds without that.
- The bit patterns of floating-point values: a double is 8 bytes, and narrowing to a float is not modelled.
- Descriptors.Fcntl.CloseFd: calls are modelled one after the other; the source releases the number before it drops the flags, so concurrent calls can see other results.
- Descriptors.Fcntl.OpenFile: path lookup, and which of the errors comes up, belong to the file system and are a parameter.
- Writev.WriteVector: the segments are the bytes the guest vector points to; how far a failing copy gets is a parameter.
- CloneReaper: a step system on values rather than a class, because a clone call and its reaper run concurrently; the register, stack and TLS set-up of the new task is not modelled.
- The dispatch table and interrupt hooks, memory mapping, signals, stat and path calls, time, system information, random numbers, prctl and resource limits: forwarding to the debugger or single-branch facts.
