/**
 Where a variadic call puts its arguments, for arguments of at most 8 bytes: general registers and
 vector registers are saved in two banks, and what does not fit there goes to one common stack area.
 Both 64-bit ABIs are instances, so the round trip is proved here once.
 */
module VaAbi {
  import opened Machine
  import opened VaMemory

  /** What a caller of Extract asks for. A float argument is promoted, so it is read as a double. */
  datatype Kind = Scalar(size: nat) | Pointer | Double

  function SizeOf(k: Kind): nat { if k.Scalar? then k.size else 8 }

  predicate Small(k: Kind) { 1 <= SizeOf(k) <= 8 }

  /** The slots left: general ones of 8 bytes, vector ones of 16, and the stack. */
  datatype Banks = Banks(gBase: u64, gSlots: nat, vBase: u64, vSlots: nat, stack: u64)

  /** The next argument: what is left afterwards, and the address of the argument. */
  function Take(b: Banks, k: Kind): (Banks, u64) {
    if k.Double? && b.vSlots > 0 then (b.(vBase := ToU64(b.vBase + 16), vSlots := b.vSlots - 1), b.vBase)
    else if !k.Double? && b.gSlots > 0 then (b.(gBase := ToU64(b.gBase + 8), gSlots := b.gSlots - 1), b.gBase)
    else (b.(stack := ToU64(b.stack + 8)), b.stack)
  }

  /** Values read earlier, put in front of the outcome of the later reads. */
  function Behind(head: seq<seq<u8>>, r: Outcome<seq<seq<u8>>>): Outcome<seq<seq<u8>>> {
    match r
    case Fault => Fault
    case Ok(vs) => Ok(head + vs)
  }

  lemma BehindNone(r: Outcome<seq<seq<u8>>>)
    ensures Behind([], r) == r
  {
    if r.Ok? {
      assert [] + r.value == r.value;
    }
  }

  lemma BehindOne(head: seq<seq<u8>>, v: seq<u8>, r: Outcome<seq<seq<u8>>>)
    ensures Behind(head, Behind([v], r)) == Behind(head + [v], r)
  {
    if r.Ok? {
      assert head + ([v] + r.value) == head + [v] + r.value;
    }
  }

  /** Reads one argument after the other. */
  function ReadAll(mem: Memory, b: Banks, ks: seq<Kind>): Outcome<seq<seq<u8>>>
    decreases |ks|
  {
    if ks == [] then Ok([])
    else
      var (b', addr) := Take(b, ks[0]);
      match ReadBytes(mem, addr, SizeOf(ks[0]))
      case Fault => Fault
      case Ok(v) => Behind([v], ReadAll(mem, b', ks[1..]))
  }

  // The caller's side

  datatype Arg = Arg(kind: Kind, bytes: seq<u8>)

  predicate ValidArg(a: Arg) { Small(a.kind) && |a.bytes| == SizeOf(a.kind) }

  function Kinds(args: seq<Arg>): (ks: seq<Kind>)
    ensures |ks| == |args| && forall i :: 0 <= i < |args| ==> ks[i] == args[i].kind
  {
    seq(|args|, i requires 0 <= i < |args| => args[i].kind)
  }

  function Values(args: seq<Arg>): (vs: seq<seq<u8>>)
    ensures |vs| == |args| && forall i :: 0 <= i < |args| ==> vs[i] == args[i].bytes
  {
    seq(|args|, i requires 0 <= i < |args| => args[i].bytes)
  }

  /** How many of the first `k` arguments are doubles, or are not. */
  function Count(args: seq<Arg>, k: nat, dbl: bool): nat
    requires k <= |args|
  {
    if k == 0 then 0 else (if args[0].kind.Double? == dbl then 1 else 0) + Count(args[1..], k - 1, dbl)
  }

  /** How many of the first `k` arguments went to the stack. */
  function Overflow(b: Banks, args: seq<Arg>, k: nat): nat
    requires k <= |args|
  {
    Max(0, Count(args, k, false) - b.gSlots) + Max(0, Count(args, k, true) - b.vSlots)
  }

  /** The address of argument `k`, from the number of arguments of each class before it. */
  function SlotOf(b: Banks, args: seq<Arg>, k: nat): int
    requires k < |args|
  {
    var n := Count(args, k, args[k].kind.Double?);
    if args[k].kind.Double? && n < b.vSlots then b.vBase + 16 * n
    else if !args[k].kind.Double? && n < b.gSlots then b.gBase + 8 * n
    else b.stack + 8 * Overflow(b, args, k)
  }

  predicate Apart(a: int, n: int, b: int, m: int) { a + n <= b || b + m <= a }

  /** The three areas are disjoint and end within the address space; the stack area holds `n` arguments. */
  predicate Roomy(b: Banks, n: nat) {
    && b.gBase + 8 * b.gSlots <= TWO64
    && b.vBase + 16 * b.vSlots <= TWO64
    && b.stack + 8 * n <= TWO64
    && Apart(b.gBase, 8 * b.gSlots, b.vBase, 16 * b.vSlots)
    && Apart(b.gBase, 8 * b.gSlots, b.stack, 8 * n)
    && Apart(b.vBase, 16 * b.vSlots, b.stack, 8 * n)
  }

  function Write(mem: Memory, addr: int, bs: seq<u8>): Memory
    decreases |bs|
  {
    if bs == [] then mem else Write(mem[addr := bs[0]], addr + 1, bs[1..])
  }

  /** The memory after the first `k` arguments have been stored. */
  function LayOut(mem: Memory, b: Banks, args: seq<Arg>, k: nat): Memory
    requires k <= |args|
  {
    if k == 0 then mem else Write(LayOut(mem, b, args, k - 1), SlotOf(b, args, k - 1), args[k - 1].bytes)
  }

  lemma {:induction false} CountStep(args: seq<Arg>, k: nat, dbl: bool)
    requires k < |args|
    ensures Count(args, k + 1, dbl) == Count(args, k, dbl) + (if args[k].kind.Double? == dbl then 1 else 0)
    ensures Count(args, k, dbl) <= k
  {
    if k > 0 {
      CountStep(args[1..], k - 1, dbl);
    }
  }

  lemma {:induction false} CountMonotone(args: seq<Arg>, j: nat, k: nat, dbl: bool)
    requires j <= k <= |args|
    ensures Count(args, j, dbl) <= Count(args, k, dbl)
    decreases k - j
  {
    if j < k {
      CountStep(args, j, dbl);
      CountMonotone(args, j + 1, k, dbl);
    }
  }

  lemma {:induction false} CountBoth(args: seq<Arg>, k: nat)
    requires k <= |args|
    ensures Count(args, k, false) + Count(args, k, true) == k
  {
    if k > 0 {
      CountBoth(args[1..], k - 1);
    }
  }

  /** Which area an argument is in. */
  lemma SlotArea(b: Banks, args: seq<Arg>, k: nat)
    requires k < |args|
    ensures var a, d := SlotOf(b, args, k), args[k].kind.Double?;
            if d && Count(args, k, true) < b.vSlots then b.vBase <= a <= b.vBase + 16 * b.vSlots - 16
            else if !d && Count(args, k, false) < b.gSlots then b.gBase <= a <= b.gBase + 8 * b.gSlots - 8
            else b.stack <= a <= b.stack + 8 * |args| - 8
  {
    CountBoth(args, k);
  }

  /** Two arguments never share a slot. */
  lemma SlotsApart(b: Banks, args: seq<Arg>, j: nat, k: nat)
    requires j < k < |args| && Roomy(b, |args|)
    ensures Apart(SlotOf(b, args, j), 8, SlotOf(b, args, k), 8)
  {
    CountStep(args, j, false);
    CountStep(args, j, true);
    CountMonotone(args, j + 1, k, false);
    CountMonotone(args, j + 1, k, true);
    SlotArea(b, args, j);
    SlotArea(b, args, k);
  }

  /** Every argument lies within the address space. */
  lemma SlotInside(b: Banks, args: seq<Arg>, k: nat)
    requires k < |args| && Roomy(b, |args|)
    ensures 0 <= SlotOf(b, args, k) && SlotOf(b, args, k) + 8 <= TWO64
  {
    CountBoth(args, k);
  }

  /** Argument `k` can be read at its own address. */
  ghost predicate FoundAt(mem: Memory, b: Banks, args: seq<Arg>, k: nat)
    requires k < |args|
  {
    Holds(mem, SlotOf(b, args, k), args[k].bytes)
  }

  ghost predicate LaidOut(mem: Memory, b: Banks, args: seq<Arg>) {
    forall k: nat :: k < |args| ==> FoundAt(mem, b, args, k)
  }

  /** A write changes the bytes it covers and no others. */
  lemma {:induction false} WriteByte(mem: Memory, addr: int, bs: seq<u8>, a: int)
    ensures addr <= a < addr + |bs| ==> a in Write(mem, addr, bs) && Write(mem, addr, bs)[a] == bs[a - addr]
    ensures !(addr <= a < addr + |bs|) ==>
              (a in Write(mem, addr, bs) <==> a in mem) && (a in mem ==> Write(mem, addr, bs)[a] == mem[a])
    decreases |bs|
  {
    if bs != [] {
      WriteByte(mem[addr := bs[0]], addr + 1, bs[1..], a);
    }
  }

  lemma WriteOwn(mem: Memory, addr: int, bs: seq<u8>)
    requires addr + |bs| <= TWO64
    ensures Holds(Write(mem, addr, bs), addr, bs)
  {
    forall x: nat | x < |bs| ensures StoredAt(Write(mem, addr, bs), addr, bs, x) {
      WriteByte(mem, addr, bs, addr + x);
    }
  }

  lemma WriteElsewhere(mem: Memory, addr: int, bs: seq<u8>, a: int, cs: seq<u8>)
    requires Apart(addr, |bs|, a, |cs|) && Holds(mem, a, cs)
    ensures Holds(Write(mem, addr, bs), a, cs)
  {
    forall x: nat | x < |cs| ensures StoredAt(Write(mem, addr, bs), a, cs, x) {
      assert StoredAt(mem, a, cs, x);
      WriteByte(mem, addr, bs, a + x);
    }
  }

  /** Storing argument `k` leaves the arguments before it. */
  lemma StoreElsewhere(mem: Memory, b: Banks, args: seq<Arg>, k: nat, j: nat)
    requires j < k < |args| && Roomy(b, |args|) && ValidArg(args[j]) && ValidArg(args[k])
    requires FoundAt(mem, b, args, j)
    ensures FoundAt(Write(mem, SlotOf(b, args, k), args[k].bytes), b, args, j)
  {
    SlotsApart(b, args, j, k);
    WriteElsewhere(mem, SlotOf(b, args, k), args[k].bytes, SlotOf(b, args, j), args[j].bytes);
  }

  lemma StoreOwn(mem: Memory, b: Banks, args: seq<Arg>, k: nat)
    requires k < |args| && Roomy(b, |args|) && ValidArg(args[k])
    ensures FoundAt(Write(mem, SlotOf(b, args, k), args[k].bytes), b, args, k)
  {
    SlotInside(b, args, k);
    WriteOwn(mem, SlotOf(b, args, k), args[k].bytes);
  }

  /** Storing the arguments one after the other destroys none of them. */
  lemma {:induction false} LayOutKeeps(mem: Memory, b: Banks, args: seq<Arg>, k: nat, j: nat)
    requires j < k <= |args| && Roomy(b, |args|) && forall i :: 0 <= i < |args| ==> ValidArg(args[i])
    ensures FoundAt(LayOut(mem, b, args, k), b, args, j)
    decreases k
  {
    if j == k - 1 {
      StoreOwn(LayOut(mem, b, args, k - 1), b, args, j);
    } else {
      LayOutKeeps(mem, b, args, k - 1, j);
      StoreElsewhere(LayOut(mem, b, args, k - 1), b, args, k - 1, j);
    }
  }

  lemma LayOutLaysOut(mem: Memory, b: Banks, args: seq<Arg>)
    requires Roomy(b, |args|) && forall i :: 0 <= i < |args| ==> ValidArg(args[i])
    ensures LaidOut(LayOut(mem, b, args, |args|), b, args)
  {
    forall j: nat | j < |args| ensures FoundAt(LayOut(mem, b, args, |args|), b, args, j) {
      LayOutKeeps(mem, b, args, |args|, j);
    }
  }

  lemma OverflowShift(b: Banks, args: seq<Arg>, k: nat)
    requires k + 1 < |args| && Roomy(b, |args|)
    ensures var b' := Take(b, args[0].kind).0;
            b'.stack + 8 * Overflow(b', args[1..], k) == b.stack + 8 * Overflow(b, args, k + 1)
  {
  }

  /** As long as a bank has slots left, its next slot follows the last one. */
  lemma NextSlot(b: Banks, k: Kind, n: nat)
    requires Roomy(b, n)
    ensures var b' := Take(b, k).0;
            && (b'.gSlots > 0 ==> b'.gBase == b.gBase + 8 * (b.gSlots - b'.gSlots))
            && (b'.vSlots > 0 ==> b'.vBase == b.vBase + 16 * (b.vSlots - b'.vSlots))
  {
  }

  /** Taking the first argument leaves the others where they are. */
  lemma SlotShift(b: Banks, args: seq<Arg>, k: nat)
    requires k + 1 < |args| && Roomy(b, |args|)
    ensures SlotOf(Take(b, args[0].kind).0, args[1..], k) == SlotOf(b, args, k + 1)
  {
    assert args[1..][k] == args[k + 1];
    NextSlot(b, args[0].kind, |args|);
    OverflowShift(b, args, k);
  }

  lemma RoomyShift(b: Banks, args: seq<Arg>)
    requires args != [] && Roomy(b, |args|)
    ensures |args| > 1 ==> Roomy(Take(b, args[0].kind).0, |args| - 1)
  {
    var b' := Take(b, args[0].kind).0;
    if args[0].kind.Double? && b.vSlots > 0 {
      assert b'.vSlots == 0 || b'.vBase == b.vBase + 16;
    } else if !args[0].kind.Double? && b.gSlots > 0 {
      assert b'.gSlots == 0 || b'.gBase == b.gBase + 8;
    } else if |args| > 1 {
      assert b'.stack == b.stack + 8;
    }
  }

  lemma TakeFirst(b: Banks, args: seq<Arg>)
    requires args != [] && Roomy(b, |args|)
    ensures Take(b, args[0].kind).1 == SlotOf(b, args, 0)
  {
  }

  /** Reading arguments that are laid out gives back exactly those arguments, in order. */
  lemma {:induction false} ReadsBack(mem: Memory, b: Banks, args: seq<Arg>)
    requires Roomy(b, |args|) && LaidOut(mem, b, args)
    requires forall i :: 0 <= i < |args| ==> ValidArg(args[i])
    ensures ReadAll(mem, b, Kinds(args)) == Ok(Values(args))
    decreases |args|
  {
    if args != [] {
      TakeFirst(b, args);
      assert FoundAt(mem, b, args, 0);
      HoldsRead(mem, SlotOf(b, args, 0), args[0].bytes);
      var b', rest := Take(b, args[0].kind).0, args[1..];
      assert Kinds(args)[1..] == Kinds(rest) && Values(args) == [args[0].bytes] + Values(rest);
      if rest != [] {
        RoomyShift(b, args);
        forall k: nat | k < |rest| ensures FoundAt(mem, b', rest, k) {
          assert FoundAt(mem, b, args, k + 1);
          SlotShift(b, args, k);
        }
        ReadsBack(mem, b', rest);
      }
    }
  }

  /** The round trip: lay out any list of arguments, read them back, and get the same list. */
  lemma RoundTrip(mem: Memory, b: Banks, args: seq<Arg>)
    requires Roomy(b, |args|) && forall i :: 0 <= i < |args| ==> ValidArg(args[i])
    ensures ReadAll(LayOut(mem, b, args, |args|), b, Kinds(args)) == Ok(Values(args))
  {
    LayOutLaysOut(mem, b, args);
    ReadsBack(LayOut(mem, b, args, |args|), b, args);
  }
}
