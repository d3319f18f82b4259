/** The 64-bit Arm argument reader of `gcc/arm64/va.go`. */
module VaArm64 {
  import opened Machine
  import opened VaMemory
  import opened VaAbi

  /** The fields of a `va_list`; the offsets are negative while saved registers are left. */
  datatype Cursor = Cursor(stack: u64, grTop: u64, vrTop: u64, grOffs: i32, vrOffs: i32)

  /** The general bytes left, and the stack, as a stream; the sign-extended offset wraps around. */
  function StreamOf(c: Cursor): Stream {
    Stream(ToU64(c.grTop + ToU64(c.grOffs)), if c.grOffs < 0 then 0 - c.grOffs else 0, c.stack)
  }

  /** The cursor moved on by a read of `n` bytes. */
  function Moved(c: Cursor, n: nat): Cursor {
    var g := InRegs(StreamOf(c), n);
    c.(grOffs := c.grOffs + g, stack := ToU64(c.stack + (n - g)))
  }

  /** Moving the fields moves the stream. */
  lemma MovedStream(c: Cursor, n: nat)
    ensures StreamOf(Moved(c, n)) == Advance(StreamOf(c), n)
  {
    var g := InRegs(StreamOf(c), n);
    ToU64Add(c.grOffs, c.grTop);
    ToU64Add(c.grOffs + g, c.grTop);
    ToU64Add(c.grTop + c.grOffs, g);
  }

  /** A read cut in two leaves the same fields as one read. */
  lemma MovedAdds(c: Cursor, n: nat, m: nat)
    ensures Moved(Moved(c, n), m) == Moved(c, n + m)
  {
    var g := InRegs(StreamOf(c), n);
    ToU64Add(c.stack + (n - g), m - InRegs(StreamOf(Moved(c, n)), m));
  }

  /** The cursor after successive reads of the given sizes. */
  function MovedAll(c: Cursor, sizes: seq<nat>): Cursor
    decreases |sizes|
  {
    if sizes == [] then c else MovedAll(Moved(c, sizes[0]), sizes[1..])
  }

  /** However a read is cut into chunks, the fields end up the same. */
  lemma {:induction false} MovedFolds(c: Cursor, sizes: seq<nat>)
    ensures MovedAll(c, sizes) == Moved(c, Sum(sizes))
    decreases |sizes|
  {
    if sizes != [] {
      MovedFolds(Moved(c, sizes[0]), sizes[1..]);
      MovedAdds(c, sizes[0], Sum(sizes[1..]));
    }
  }

  // The va_arg rules of the "Variable argument lists" appendix of AAPCS64, for types of at most 8 bytes

  /** The cursor after the argument, and the address of the argument. */
  function VaArg(c: Cursor, k: Kind): (Cursor, u64) {
    if k.Double? then
      if c.vrOffs >= 0 || c.vrOffs + 16 > 0 then OnStack(c, k)
      else (c.(vrOffs := c.vrOffs + 16), ToU64(c.vrTop + c.vrOffs))
    else
      if c.grOffs >= 0 || c.grOffs + 8 > 0 then OnStack(c, k)
      else (c.(grOffs := c.grOffs + 8), ToU64(c.grTop + c.grOffs))
  }

  function OnStack(c: Cursor, k: Kind): (Cursor, u64) {
    (c.(stack := ToU64(Align8(c.stack + SizeOf(k)))), c.stack)
  }

  /** General offset and stack on 8-byte boundaries, vector offset on a 16-byte one. */
  predicate Aligned(c: Cursor) {
    c.stack % 8 == 0 && c.grOffs % 8 == 0 && c.vrOffs % 16 == 0
  }

  /** The slots left in both banks. */
  function BanksOf(c: Cursor): Banks {
    Banks(ToU64(c.grTop + c.grOffs), if c.grOffs < 0 then (0 - c.grOffs) / 8 else 0,
          ToU64(c.vrTop + c.vrOffs), if c.vrOffs < 0 then (0 - c.vrOffs) / 16 else 0, c.stack)
  }

  /** The offsets have not passed the end of the register areas. */
  predicate InLimits(c: Cursor) { c.grOffs <= 0 && c.vrOffs <= 0 }

  /** The standard's rule takes the next slot, keeps the list aligned and moves no offset past its limit. */
  predicate Takes(c: Cursor, k: Kind) {
    var (c', addr) := VaArg(c, k);
    Aligned(c') && (InLimits(c) ==> InLimits(c')) && (BanksOf(c'), addr) == Take(BanksOf(c), k)
  }

  lemma TakesVector(c: Cursor)
    requires Aligned(c) && c.vrOffs < 0
    ensures Takes(c, Double)
  {
    SlotsLeft(c.vrOffs, 16);
    ToU64Add(c.vrTop + c.vrOffs, 16);
  }

  lemma TakesGeneral(c: Cursor, k: Kind)
    requires Aligned(c) && Small(k) && !k.Double? && c.grOffs < 0
    ensures Takes(c, k)
  {
    SlotsLeft(c.grOffs, 8);
    ToU64Add(c.grTop + c.grOffs, 8);
  }

  lemma TakesStack(c: Cursor, k: Kind)
    requires Aligned(c) && Small(k) && (if k.Double? then c.vrOffs >= 0 else c.grOffs >= 0)
    ensures Takes(c, k)
  {
    OneSlot(c.stack, SizeOf(k));
    NextSlotAligned(c.stack);
    assert VaArg(c, k) == (c.(stack := ToU64(c.stack + 8)), c.stack);
  }

  /** The standard's rule is the slot rule. */
  lemma VaArgTakes(c: Cursor, k: Kind)
    requires Aligned(c) && Small(k)
    ensures Takes(c, k)
  {
    if k.Double? && c.vrOffs < 0 {
      TakesVector(c);
    } else if !k.Double? && c.grOffs < 0 {
      TakesGeneral(c, k);
    } else {
      TakesStack(c, k);
    }
  }

  /** The arguments that successive va_arg calls find. */
  function VaArgs(mem: Memory, c: Cursor, ks: seq<Kind>): Outcome<seq<seq<u8>>>
    decreases |ks|
  {
    if ks == [] then Ok([])
    else
      var (c', addr) := VaArg(c, ks[0]);
      match ReadBytes(mem, addr, SizeOf(ks[0]))
      case Fault => Fault
      case Ok(v) => Behind([v], VaArgs(mem, c', ks[1..]))
  }

  /** The cursor after successive va_arg calls. */
  function After(c: Cursor, ks: seq<Kind>): Cursor
    decreases |ks|
  {
    if ks == [] then c else After(VaArg(c, ks[0]).0, ks[1..])
  }

  lemma {:induction false} VaArgsReadBanks(mem: Memory, c: Cursor, ks: seq<Kind>)
    requires Aligned(c) && forall i :: 0 <= i < |ks| ==> Small(ks[i])
    ensures VaArgs(mem, c, ks) == ReadAll(mem, BanksOf(c), ks)
    decreases |ks|
  {
    if ks != [] {
      VaArgTakes(c, ks[0]);
      VaArgsReadBanks(mem, VaArg(c, ks[0]).0, ks[1..]);
    }
  }

  /** What Extract does to the cursor after each argument. */
  function Settle(c: Cursor): Cursor {
    c.(stack := ToU64(Align8(c.stack)), grOffs := ToI32(Align8(c.grOffs)))
  }

  /** The code reads `n` bytes at `addr` and, once settled, is at `c'`. */
  predicate ReadsAt(mem: Memory, c: Cursor, n: nat, c': Cursor, addr: u64) {
    ReadStream(mem, StreamOf(c), n) == ReadBytes(mem, addr, n) && Settle(Moved(c, n)) == c'
  }

  lemma SettleGeneral(offs: i32)
    requires offs % 8 == 0
    ensures ToI32(Align8(offs)) == offs
  {
  }

  /** After up to 8 bytes of the stack the cursor settles behind one slot. */
  lemma SettleStack(c: Cursor, n: nat)
    requires Aligned(c) && 1 <= n <= 8
    ensures Settle(c.(stack := ToU64(c.stack + n))) == c.(stack := ToU64(c.stack + 8))
  {
    OneSlotU64(c.stack, n);
    SettleGeneral(c.grOffs);
  }

  lemma SmallInRegs(mem: Memory, c: Cursor, n: nat)
    requires Aligned(c) && 1 <= n <= 8 && c.grOffs < 0
    ensures n <= StreamOf(c).rest
    ensures ReadsAt(mem, c, n, c.(grOffs := c.grOffs + 8), ToU64(c.grTop + c.grOffs))
  {
    ToU64Add(c.grOffs, c.grTop);
    EmptyTail(mem, StreamOf(c), n);
    OneSlot(c.grOffs, n);
    assert ToU64(c.stack) == c.stack && Align8(c.stack) == c.stack;
  }

  lemma SmallOnStack(mem: Memory, c: Cursor, n: nat)
    requires Aligned(c) && 1 <= n <= 8 && c.grOffs >= 0
    ensures ReadsAt(mem, c, n, c.(stack := ToU64(c.stack + 8)), c.stack)
  {
    OnlyStack(mem, StreamOf(c), n);
    assert Moved(c, n) == c.(stack := ToU64(c.stack + n));
    SettleStack(c, n);
  }

  /** For a small argument the aligned code never splits, and reads where the standard says. */
  lemma SmallReadAgrees(mem: Memory, c: Cursor, k: Kind)
    requires Aligned(c) && Small(k) && !k.Double?
    ensures StreamOf(c).rest == 0 || SizeOf(k) <= StreamOf(c).rest
    ensures ReadsAt(mem, c, SizeOf(k), VaArg(c, k).0, VaArg(c, k).1)
  {
    if c.grOffs < 0 {
      SmallInRegs(mem, c, SizeOf(k));
    } else {
      SmallOnStack(mem, c, SizeOf(k));
      OneSlot(c.stack, SizeOf(k));
    }
  }

  /** The slot `ReadDouble` reads, and the cursor after it. */
  function DoubleAddr(c: Cursor): u64 { if c.vrOffs >= 0 then c.stack else ToU64(c.vrTop + ToU64(c.vrOffs)) }

  function DoublePassed(c: Cursor): Cursor {
    if c.vrOffs >= 0 then c.(stack := ToU64(c.stack + 8)) else c.(vrOffs := ToI32(c.vrOffs + 16))
  }

  /** The same for a double. */
  lemma DoubleAgrees(c: Cursor)
    requires Aligned(c)
    ensures (Settle(DoublePassed(c)), DoubleAddr(c)) == VaArg(c, Double)
  {
    if c.vrOffs >= 0 {
      OneSlot(c.stack, 8);
      SettleStack(c, 8);
    } else {
      ToU64Add(c.vrOffs, c.vrTop);
      SettleGeneral(c.grOffs);
      SlotsLeft(c.vrOffs, 16);
      assert Align8(c.stack) == c.stack && ToU64(c.stack) == c.stack;
    }
  }

  // What the code does with any argument, aligned or not

  /** The cursor after `Read` of `n` bytes, also when it fails. */
  function ReadPassed(mem: Memory, c: Cursor, n: nat): Cursor {
    var s := StreamOf(c);
    if 0 < s.rest < n && !Readable(mem, s.base, s.rest) then c else Moved(c, n)
  }

  /** What decoding one argument gives. */
  function Fetch(mem: Memory, c: Cursor, k: Kind): Outcome<seq<u8>> {
    if k.Double? then ReadBytes(mem, DoubleAddr(c), 8) else ReadStream(mem, StreamOf(c), SizeOf(k))
  }

  /** The cursor after decoding one argument, before it is settled. */
  function Passed(mem: Memory, c: Cursor, k: Kind): Cursor {
    if k.Double? then DoublePassed(c) else ReadPassed(mem, c, SizeOf(k))
  }

  /** What `Extract` returns. */
  function Extracted(mem: Memory, c: Cursor, ks: seq<Kind>): Outcome<seq<seq<u8>>>
    decreases |ks|
  {
    if ks == [] then Ok([])
    else
      match Fetch(mem, c, ks[0])
      case Fault => Fault
      case Ok(v) => Behind([v], Extracted(mem, Settle(Passed(mem, c, ks[0])), ks[1..]))
  }

  /** Where `Extract` leaves the cursor; a failed decode leaves it unsettled. */
  function Left(mem: Memory, c: Cursor, ks: seq<Kind>): Cursor
    decreases |ks|
  {
    if ks == [] then c
    else if Fetch(mem, c, ks[0]).Fault? then Passed(mem, c, ks[0])
    else Left(mem, Settle(Passed(mem, c, ks[0])), ks[1..])
  }

  /** On an aligned list one round of `Extract` is one va_arg call. */
  lemma RoundAgrees(mem: Memory, c: Cursor, k: Kind)
    requires Aligned(c) && Small(k)
    ensures var (c', addr) := VaArg(c, k);
            Fetch(mem, c, k) == ReadBytes(mem, addr, SizeOf(k)) && Settle(Passed(mem, c, k)) == c'
  {
    if k.Double? {
      DoubleAgrees(c);
    } else {
      SmallReadAgrees(mem, c, k);
    }
  }

  /** On an aligned list `Extract` finds what successive va_arg calls find, and leaves the cursor where they do. */
  lemma {:induction false} ExtractAgrees(mem: Memory, c: Cursor, ks: seq<Kind>)
    requires Aligned(c) && forall i :: 0 <= i < |ks| ==> Small(ks[i])
    ensures Extracted(mem, c, ks) == VaArgs(mem, c, ks)
    ensures Extracted(mem, c, ks).Ok? ==> Left(mem, c, ks) == After(c, ks)
    decreases |ks|
  {
    if ks != [] {
      RoundAgrees(mem, c, ks[0]);
      VaArgTakes(c, ks[0]);
      ExtractAgrees(mem, VaArg(c, ks[0]).0, ks[1..]);
    }
  }

  /** Laying out any list of small arguments and extracting them gives back the same list. */
  lemma ExtractRoundTrip(mem: Memory, c: Cursor, args: seq<Arg>)
    requires Aligned(c) && Roomy(BanksOf(c), |args|) && forall i :: 0 <= i < |args| ==> ValidArg(args[i])
    ensures var mem' := LayOut(mem, BanksOf(c), args, |args|);
            Extracted(mem', c, Kinds(args)) == Ok(Values(args)) && Left(mem', c, Kinds(args)) == After(c, Kinds(args))
  {
    var mem' := LayOut(mem, BanksOf(c), args, |args|);
    RoundTrip(mem, BanksOf(c), args);
    VaArgsReadBanks(mem', c, Kinds(args));
    ExtractAgrees(mem', c, Kinds(args));
  }

  lemma ReadOnStack(mem: Memory, c: Cursor, n: nat)
    requires c.grOffs >= 0
    ensures StreamReadable(mem, StreamOf(c), n) <==> Readable(mem, c.stack, n)
    ensures StreamReadable(mem, StreamOf(c), n) ==> StreamBytes(mem, StreamOf(c), n) == Bytes(mem, c.stack, n)
    ensures ReadPassed(mem, c, n) == c.(stack := ToU64(c.stack + n))
  {
    OnlyStack(mem, StreamOf(c), n);
  }

  lemma ReadInRegs(mem: Memory, c: Cursor, n: nat)
    requires c.grOffs < 0 && n + c.grOffs <= 0
    ensures var a := ToU64(c.grTop + ToU64(c.grOffs));
            && (StreamReadable(mem, StreamOf(c), n) <==> Readable(mem, a, n))
            && (StreamReadable(mem, StreamOf(c), n) ==> StreamBytes(mem, StreamOf(c), n) == Bytes(mem, a, n))
    ensures ReadPassed(mem, c, n) == c.(grOffs := ToI32(c.grOffs + ToI32(n)))
  {
    EmptyTail(mem, StreamOf(c), n);
  }

  // Where the code and the standard part

  /** `Skip`; a negative `n` moves back. */
  function Skipped(c: Cursor, n: i64): Cursor {
    if c.grOffs < 0 then c.(grOffs := ToI32(c.grOffs + ToI32(n))) else c.(stack := ToU64(c.stack + ToU64(n)))
  }

  /** Skipping within the registers, or when none are left, is moving. */
  lemma SkipMoves(c: Cursor, n: i64)
    requires n >= 0 && (c.grOffs >= 0 || n <= 0 - c.grOffs)
    ensures Skipped(c, n) == Moved(c, n)
  {
  }

  /** A skip that would have to cross leaves the stack where it is. */
  lemma SkipStays(c: Cursor, n: i64)
    requires c.grOffs < 0 && n > 0 - c.grOffs
    ensures StreamOf(Skipped(c, n)).stack != Advance(StreamOf(c), n).stack
  {
    ToU64Moves(c.stack, n + c.grOffs);
  }

  /** Skipping back over what was read, within one area. */
  lemma SkipReturns(c: Cursor, n: int)
    requires 0 <= n <= TWO63 && (c.grOffs >= 0 || n < 0 - c.grOffs)
    ensures Skipped(Moved(c, n), 0 - n) == c
  {
    if c.grOffs >= 0 {
      ToU64Back(c.stack, n);
    } else {
      assert Moved(c, n) == c.(grOffs := c.grOffs + n);
      assert ToI32(0 - n) == 0 - n;
    }
  }

  /**
   Skipping forwards is the same as reading and discarding exactly when it does not leave the register area;
   skipping backwards undoes a read of as many bytes exactly when that read did not use up the register area.
   */
  lemma SkipAgreesIff(c: Cursor, n: i64)
    ensures n >= 0 ==>
              (StreamOf(Skipped(c, n)) == Advance(StreamOf(c), n) <==> (c.grOffs >= 0 || n <= 0 - c.grOffs))
    ensures n <= 0 ==>
              (Skipped(Moved(c, 0 - n), n) == c <==> (c.grOffs >= 0 || 0 - n < 0 - c.grOffs))
  {
    if n >= 0 {
      if c.grOffs >= 0 || n <= 0 - c.grOffs {
        SkipMoves(c, n);
        MovedStream(c, n);
      } else {
        SkipStays(c, n);
      }
    }
    if n <= 0 && (c.grOffs >= 0 || 0 - n < 0 - c.grOffs) {
      SkipReturns(c, 0 - n);
    }
  }

  /** A cursor with one register left: skipping two of them moves past the registers and leaves the stack. */
  lemma SkipSplit()
    ensures var c := Cursor(0x2000, 0x1040, 0x10C0, -8, 0);
            StreamOf(Skipped(c, 16)) != Advance(StreamOf(c), 16)
  {
    SkipAgreesIff(Cursor(0x2000, 0x1040, 0x10C0, -8, 0), 16);
  }

  function RoundIf(x: int, aligned16: bool): int { if aligned16 then Align16(x) else x }

  /**
   An integer type or composite of 9 to 16 bytes, whose alignment may be 16: the standard finds it in one
   piece, in two registers if both are left and else on the stack, with offset or stack rounded up first.
   */
  function WideAddr(c: Cursor, aligned16: bool): u64 {
    var offs := RoundIf(c.grOffs, aligned16);
    if c.grOffs >= 0 || offs + 16 > 0 then ToU64(RoundIf(c.stack, aligned16)) else ToU64(c.grTop + offs)
  }

  /**
   The area it is taken from needs no rounding, and it does not cross from one area to the other. (If it does
   cross by the standard's count, the code can still be right only where the two areas are the same memory.)
   */
  predicate WideFits(c: Cursor, size: nat, aligned16: bool) {
    if c.grOffs >= 0 then aligned16 ==> c.stack % 16 == 0
    else if RoundIf(c.grOffs, aligned16) + 16 <= 0 then aligned16 ==> c.grOffs % 16 == 0
    else size <= 0 - c.grOffs && StreamOf(c).base == WideAddr(c, aligned16)
  }

  lemma WideInRegs(c: Cursor, size: nat, aligned16: bool)
    requires 9 <= size <= 16 && c.grOffs < 0 && RoundIf(c.grOffs, aligned16) + 16 <= 0
    ensures InOnePiece(StreamOf(c), WideAddr(c, aligned16), size) <==> WideFits(c, size, aligned16)
  {
    var offs := RoundIf(c.grOffs, aligned16);
    OnePieceAreas(StreamOf(c), WideAddr(c, aligned16), size);
    ToU64Add(c.grOffs, c.grTop);
    ToU64Apart(c.grTop + c.grOffs, offs - c.grOffs);
    assert InRegs(StreamOf(c), size) == size && WideAddr(c, aligned16) == ToU64(c.grTop + c.grOffs + (offs - c.grOffs));
  }

  lemma WideOnStack(c: Cursor, size: nat, aligned16: bool)
    requires 9 <= size <= 16 && (c.grOffs >= 0 || RoundIf(c.grOffs, aligned16) + 16 > 0)
    ensures InOnePiece(StreamOf(c), WideAddr(c, aligned16), size) <==> WideFits(c, size, aligned16)
  {
    OnePieceAreas(StreamOf(c), WideAddr(c, aligned16), size);
    ToU64Round(c.stack, RoundIf(c.stack, aligned16));
  }

  lemma WidePiece(c: Cursor, size: nat, aligned16: bool)
    requires 9 <= size <= 16
    ensures InOnePiece(StreamOf(c), WideAddr(c, aligned16), size) <==> WideFits(c, size, aligned16)
  {
    if c.grOffs < 0 && RoundIf(c.grOffs, aligned16) + 16 <= 0 {
      WideInRegs(c, size, aligned16);
    } else {
      WideOnStack(c, size, aligned16);
    }
  }

  /** The code reads a wide argument as the standard does, in every memory, exactly when it fits. */
  lemma WideAgreesIff(c: Cursor, size: nat, aligned16: bool)
    requires 9 <= size <= 16 && WideAddr(c, aligned16) + size <= TWO64
    ensures (forall mem: Memory :: ReadStream(mem, StreamOf(c), size) == ReadBytes(mem, WideAddr(c, aligned16), size))
            <==> WideFits(c, size, aligned16)
  {
    SameReadsIff(StreamOf(c), WideAddr(c, aligned16), size);
    WidePiece(c, size, aligned16);
  }

  /** One register left: the standard takes 16 bytes from the stack, the code 8 from each area. */
  lemma WideSplit() returns (mem: Memory)
    ensures var c := Cursor(0x2000, 0x1040, 0x10C0, -8, 0);
            ReadStream(mem, StreamOf(c), 16) != ReadBytes(mem, WideAddr(c, false), 16)
  {
    var c := Cursor(0x2000, 0x1040, 0x10C0, -8, 0);
    WideAgreesIff(c, 16, false);
    mem :| ReadStream(mem, StreamOf(c), 16) != ReadBytes(mem, WideAddr(c, false), 16);
  }

  /** The reader object: it walks over the areas by updating its fields in place. */
  class List {
    const mem: Memory
    const grTop: u64
    const vrTop: u64
    var stack: u64
    var grOffs: i32
    var vrOffs: i32

    constructor (mem: Memory, c: Cursor)
      ensures this.mem == mem && View() == c
    {
      this.mem, grTop, vrTop := mem, c.grTop, c.vrTop;
      stack, grOffs, vrOffs := c.stack, c.grOffs, c.vrOffs;
    }

    function View(): Cursor
      reads this
    {
      Cursor(stack, grTop, vrTop, grOffs, vrOffs)
    }

    /**
     `Read` fills `b[..n]` from the stream. When the read spans both areas and the register
     part is unreadable the cursor stays; otherwise it moves on, even if the read fails.
     */
    method Read(b: array<u8>, n: nat) returns (ok: bool)
      requires n <= b.Length
      modifies this, b
      ensures ok <==> StreamReadable(mem, StreamOf(old(View())), n)
      ensures ok ==> b[..n] == StreamBytes(mem, StreamOf(old(View())), n)
      ensures ok ==> forall k :: n <= k < b.Length ==> b[k] == old(b[k])
      ensures View() == ReadPassed(mem, old(View()), n)
      ensures var s := StreamOf(old(View()));
              View() == if 0 < s.rest < n && !Readable(mem, s.base, s.rest) then old(View()) else Moved(old(View()), n)
    {
      ghost var c := View();
      if grOffs >= 0 {
        ReadOnStack(mem, c, n);
        ok := MemReadPtr(mem, stack, n, b, 0);
        stack := ToU64(stack + n);
        assert b[..n] == b[0..0 + n];
      } else if n + grOffs <= 0 {
        ReadInRegs(mem, c, n);
        ok := MemReadPtr(mem, ToU64(grTop + ToU64(grOffs)), n, b, 0);
        grOffs := ToI32(grOffs + ToI32(n));
        assert b[..n] == b[0..0 + n];
      } else {
        ok := ReadAcross(b, n);
      }
    }

    /** The third branch of `Read`: the rest of the registers, and then the stack. */
    method ReadAcross(b: array<u8>, n: nat) returns (ok: bool)
      requires n <= b.Length && grOffs < 0 < n + grOffs
      modifies this, b
      ensures ok <==> StreamReadable(mem, StreamOf(old(View())), n)
      ensures ok ==> b[..n] == StreamBytes(mem, StreamOf(old(View())), n)
      ensures ok ==> forall k :: n <= k < b.Length ==> b[k] == old(b[k])
      ensures View() == ReadPassed(mem, old(View()), n)
    {
      var x := n + grOffs;
      var i := n - x;
      ok := MemReadPtr(mem, ToU64(grTop + ToU64(grOffs)), i, b, 0);
      if !ok {
        return;
      }
      ghost var head := b[..i];
      assert head == b[0..0 + i];
      grOffs := 0;
      ok := MemReadPtr(mem, stack, x, b, i);
      stack := ToU64(stack + x);
      assert b[..n] == b[..i] + b[i..i + x] && b[..i] == head;
    }

    /** Successive reads, as the decoder makes them for the parts of a value. */
    method ReadParts(sizes: seq<nat>) returns (bs: seq<u8>, ok: bool)
      modifies this
      ensures (if ok then Ok(bs) else Fault) == ReadChunks(mem, StreamOf(old(View())), sizes)
      ensures NoWrap(StreamOf(old(View())), Sum(sizes)) ==>
                (if ok then Ok(bs) else Fault) == ReadStream(mem, StreamOf(old(View())), Sum(sizes))
      ensures ok ==> View() == Moved(old(View()), Sum(sizes))
    {
      ghost var c0 := View();
      bs, ok := [], true;
      assert sizes[0..] == sizes;
      JoinedNone(ReadChunks(mem, StreamOf(c0), sizes));
      ChunksAgree(mem, StreamOf(c0), sizes);
      MovedFolds(c0, sizes);
      for i := 0 to |sizes|
        invariant ok && ReadChunks(mem, StreamOf(c0), sizes) == Joined(bs, ReadChunks(mem, StreamOf(View()), sizes[i..]))
        invariant MovedAll(c0, sizes) == MovedAll(View(), sizes[i..])
      {
        ghost var c := View();
        assert sizes[i..][0] == sizes[i] && sizes[i..][1..] == sizes[i + 1..];
        MovedStream(c, sizes[i]);
        var b := new u8[sizes[i]];
        ok := Read(b, sizes[i]);
        if !ok {
          return;
        }
        assert b[..] == b[..sizes[i]];
        JoinedTwice(bs, b[..], ReadChunks(mem, StreamOf(View()), sizes[i + 1..]));
        bs := bs + b[..];
      }
      assert bs + [] == bs;
    }

    /** `ReadDouble` takes the next vector slot, or the stack; the cursor moves on even if the read fails. */
    method ReadDouble(b: array<u8>) returns (ok: bool)
      requires b.Length == 8
      modifies this, b
      ensures (if ok then Ok(b[..]) else Fault) == Fetch(mem, old(View()), Double)
      ensures View() == DoublePassed(old(View()))
    {
      if vrOffs >= 0 {
        ok := MemReadPtr(mem, stack, 8, b, 0);
        stack := ToU64(stack + 8);
        assert b[..] == b[0..8];
        return;
      }
      ok := MemReadPtr(mem, ToU64(vrTop + ToU64(vrOffs)), 8, b, 0);
      vrOffs := ToI32(vrOffs + 16);
      assert b[..] == b[0..8];
    }

    /** `Skip` moves within one area only. */
    method Skip(n: i64)
      modifies this
      ensures View() == Skipped(old(View()), n)
    {
      if grOffs < 0 {
        grOffs := ToI32(grOffs + ToI32(n));
      } else {
        stack := ToU64(stack + ToU64(n));
      }
    }

    /** `ReadStream` reads the pointer that the caller then follows. */
    method ReadPointer(b: array<u8>) returns (ok: bool)
      requires b.Length == 8
      modifies this, b
      ensures (if ok then Ok(b[..]) else Fault) == Fetch(mem, old(View()), Pointer)
      ensures View() == Passed(mem, old(View()), Pointer)
    {
      ok := Read(b, 8);
      assert b[..] == b[..8];
    }

    /** One round of `Extract`: decode an argument, then align the stack and the general offset. */
    method ExtractOne(k: Kind) returns (v: seq<u8>, ok: bool)
      modifies this
      ensures (if ok then Ok(v) else Fault) == Fetch(mem, old(View()), k)
      ensures View() == if ok then Settle(Passed(mem, old(View()), k)) else Passed(mem, old(View()), k)
      ensures Aligned(old(View())) && Small(k) ==>
                var (c', addr) := VaArg(old(View()), k);
                (if ok then Ok(v) else Fault) == ReadBytes(mem, addr, SizeOf(k)) && (ok ==> View() == c')
    {
      ghost var c := View();
      var b := new u8[SizeOf(k)];
      match k {
        case Double => ok := ReadDouble(b);
        case Pointer => ok := ReadPointer(b);
        case Scalar(n) => ok := Read(b, n); assert b[..] == b[..n];
      }
      v := b[..];
      if ok {
        stack := ToU64(Align8(stack));
        grOffs := ToI32(Align8(grOffs));
      }
      if Aligned(c) && Small(k) {
        RoundAgrees(mem, c, k);
      }
    }

    /**
     `Extract`: the values and the cursor for every list, and on an aligned `va_list` what successive
     va_arg calls of the standard give.
     */
    method Extract(ks: seq<Kind>) returns (vals: seq<seq<u8>>, ok: bool)
      modifies this
      ensures (if ok then Ok(vals) else Fault) == Extracted(mem, old(View()), ks)
      ensures View() == Left(mem, old(View()), ks)
      ensures Aligned(old(View())) && (forall i :: 0 <= i < |ks| ==> Small(ks[i])) ==>
                (if ok then Ok(vals) else Fault) == VaArgs(mem, old(View()), ks) && (ok ==> View() == After(old(View()), ks))
    {
      vals, ok := [], true;
      ghost var c0 := View();
      assert ks[0..] == ks;
      BehindNone(Extracted(mem, c0, ks));
      if Aligned(c0) && forall i :: 0 <= i < |ks| ==> Small(ks[i]) {
        ExtractAgrees(mem, c0, ks);
      }
      for i := 0 to |ks|
        invariant ok && Extracted(mem, c0, ks) == Behind(vals, Extracted(mem, View(), ks[i..]))
        invariant Left(mem, c0, ks) == Left(mem, View(), ks[i..])
      {
        assert ks[i..][0] == ks[i] && ks[i..][1..] == ks[i + 1..];
        var v;
        v, ok := ExtractOne(ks[i]);
        if !ok {
          return;
        }
        BehindOne(vals, v, Extracted(mem, View(), ks[i + 1..]));
        vals := vals + [v];
      }
      assert vals + [] == vals;
    }
  }

  /** Running `Extract` over memory that a caller has laid out returns the arguments, and stops behind the last one. */
  method ExtractLaidOut(mem: Memory, c: Cursor, args: seq<Arg>) returns (vals: seq<seq<u8>>, end: Cursor)
    requires Aligned(c) && Roomy(BanksOf(c), |args|) && forall i :: 0 <= i < |args| ==> ValidArg(args[i])
    ensures vals == Values(args) && end == After(c, Kinds(args))
  {
    ExtractRoundTrip(mem, c, args);
    var list := new List(LayOut(mem, BanksOf(c), args, |args|), c);
    var ok;
    vals, ok := list.Extract(Kinds(args));
    end := list.View();
  }
}
