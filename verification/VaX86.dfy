/** The x86-64 argument reader of `gcc/x86_64/va.go`. */
module VaX86 {
  import opened Machine
  import opened VaMemory
  import opened VaAbi

  const POINTER_SIZE := 8
  const GENERAL_OFFSET_MAX := 6 * POINTER_SIZE
  const XMM_OFFSET_MAX := GENERAL_OFFSET_MAX + 8 * 16

  /** The fields of a `va_list`; both offsets count from the start of the register save area. */
  datatype Cursor = Cursor(gp: u32, fp: u32, overflow: u64, area: u64)

  /** The general bytes left, and the overflow area, as a stream. */
  function StreamOf(c: Cursor): Stream {
    Stream(ToU64(c.area + c.gp), if c.gp < GENERAL_OFFSET_MAX then GENERAL_OFFSET_MAX - c.gp else 0, c.overflow)
  }

  /** The cursor moved on by a read of `n` bytes. */
  function Moved(c: Cursor, n: nat): Cursor {
    var g := InRegs(StreamOf(c), n);
    c.(gp := c.gp + g, overflow := ToU64(c.overflow + (n - g)))
  }

  /** Moving the fields moves the stream. */
  lemma MovedStream(c: Cursor, n: nat)
    ensures StreamOf(Moved(c, n)) == Advance(StreamOf(c), n)
  {
    ToU64Add(c.area + c.gp, InRegs(StreamOf(c), n));
  }

  /** A read cut in two leaves the same fields as one read. */
  lemma MovedAdds(c: Cursor, n: nat, m: nat)
    ensures Moved(Moved(c, n), m) == Moved(c, n + m)
  {
    var g := InRegs(StreamOf(c), n);
    ToU64Add(c.overflow + (n - g), m - InRegs(StreamOf(Moved(c, n)), m));
  }

  /** The cursor after successive reads of the given sizes. */
  function MovedAll(c: Cursor, sizes: seq<nat>): Cursor
    decreases |sizes|
  {
    if sizes == [] then c else MovedAll(Moved(c, sizes[0]), sizes[1..])
  }

  /** However a read is cut into chunks, the fields end up the same. */
  lemma {:induction false} MovedFolds(c: Cursor, sizes: seq<nat>)
    ensures MovedAll(c, sizes) == Moved(c, Sum(sizes))
    decreases |sizes|
  {
    if sizes != [] {
      MovedFolds(Moved(c, sizes[0]), sizes[1..]);
      MovedAdds(c, sizes[0], Sum(sizes[1..]));
    }
  }

  // The va_arg rules of section 3.5.7 of the System V AMD64 psABI, for types of at most 8 bytes. The register save
  // area holds 6 general registers of 8 bytes and then 8 vector registers of 16, so the limits are 48 and 176.

  /** The cursor after the argument, and the address of the argument. */
  function VaArg(c: Cursor, k: Kind): (Cursor, u64) {
    if k.Double? then
      if c.fp > 176 - 16 then InOverflow(c, k)
      else (c.(fp := c.fp + 16), ToU64(c.area + c.fp))
    else
      if c.gp > 48 - 8 then InOverflow(c, k)
      else (c.(gp := c.gp + 8), ToU64(c.area + c.gp))
  }

  function InOverflow(c: Cursor, k: Kind): (Cursor, u64) {
    (c.(overflow := ToU64(Align8(c.overflow + SizeOf(k)))), c.overflow)
  }

  /** General offset and overflow area on 8-byte boundaries, vector offset on a 16-byte one. */
  predicate Aligned(c: Cursor) {
    c.overflow % 8 == 0 && c.gp % 8 == 0 && c.fp % 16 == 0
  }

  /** The slots left in both banks. */
  function BanksOf(c: Cursor): Banks {
    Banks(ToU64(c.area + c.gp), if c.gp < 48 then (48 - c.gp) / 8 else 0,
          ToU64(c.area + c.fp), if c.fp < 176 then (176 - c.fp) / 16 else 0, c.overflow)
  }

  /** A list as va_start leaves it: six general slots from the start of the save area, and eight vector slots behind them. */
  lemma StartSlots(overflow: u64, area: u64)
    ensures BanksOf(Cursor(0, 48, overflow, area)) == Banks(area, 6, ToU64(area + 48), 8, overflow)
    ensures InLimits(Cursor(0, 48, overflow, area))
  {
  }

  /** Where the code reads the next double: slot `j` of the eight, and the overflow area when they are used up. */
  lemma DoubleSlots(c: Cursor, j: nat)
    requires j <= 8 && c.fp == 48 + 16 * j
    ensures j < 8 ==> DoubleAddr(c) == ToU64(c.area + 48 + 16 * j) && DoublePassed(c) == c.(fp := 48 + 16 * (j + 1))
    ensures j == 8 ==> DoubleAddr(c) == c.overflow && DoublePassed(c) == c.(overflow := ToU64(c.overflow + 8))
  {
  }

  /** Where the code reads the next small argument: slot `j` of the six, and the overflow area when they are used up. */
  lemma GeneralSlots(c: Cursor, j: nat)
    requires j <= 6 && c.gp == 8 * j
    ensures StreamOf(c) == Stream(ToU64(c.area + 8 * j), 48 - 8 * j, c.overflow)
  {
  }

  /** The offsets have not passed the end of their register areas. */
  predicate InLimits(c: Cursor) { c.gp <= 48 && c.fp <= 176 }

  /** The standard's rule takes the next slot, keeps the list aligned and moves no offset past its limit. */
  predicate Takes(c: Cursor, k: Kind) {
    var (c', addr) := VaArg(c, k);
    Aligned(c') && (InLimits(c) ==> InLimits(c')) && (BanksOf(c'), addr) == Take(BanksOf(c), k)
  }

  lemma TakesVector(c: Cursor)
    requires Aligned(c) && c.fp < 176
    ensures Takes(c, Double)
  {
    SlotsLeft(c.fp - 176, 16);
    ToU64Add(c.area + c.fp, 16);
  }

  lemma TakesGeneral(c: Cursor, k: Kind)
    requires Aligned(c) && Small(k) && !k.Double? && c.gp < 48
    ensures Takes(c, k)
  {
    SlotsLeft(c.gp - 48, 8);
    ToU64Add(c.area + c.gp, 8);
  }

  lemma TakesOverflow(c: Cursor, k: Kind)
    requires Aligned(c) && Small(k) && (if k.Double? then c.fp >= 176 else c.gp >= 48)
    ensures Takes(c, k)
  {
    OneSlot(c.overflow, SizeOf(k));
    NextSlotAligned(c.overflow);
    assert VaArg(c, k) == (c.(overflow := ToU64(c.overflow + 8)), c.overflow);
  }

  /** The standard's rule is the slot rule. */
  lemma VaArgTakes(c: Cursor, k: Kind)
    requires Aligned(c) && Small(k)
    ensures Takes(c, k)
  {
    if k.Double? && c.fp < 176 {
      TakesVector(c);
    } else if !k.Double? && c.gp < 48 {
      TakesGeneral(c, k);
    } else {
      TakesOverflow(c, k);
    }
  }

  /** The arguments that successive va_arg calls find. */
  function VaArgs(mem: Memory, c: Cursor, ks: seq<Kind>): Outcome<seq<seq<u8>>>
    decreases |ks|
  {
    if ks == [] then Ok([])
    else
      var (c', addr) := VaArg(c, ks[0]);
      match ReadBytes(mem, addr, SizeOf(ks[0]))
      case Fault => Fault
      case Ok(v) => Behind([v], VaArgs(mem, c', ks[1..]))
  }

  /** The cursor after successive va_arg calls. */
  function After(c: Cursor, ks: seq<Kind>): Cursor
    decreases |ks|
  {
    if ks == [] then c else After(VaArg(c, ks[0]).0, ks[1..])
  }

  lemma {:induction false} VaArgsReadBanks(mem: Memory, c: Cursor, ks: seq<Kind>)
    requires Aligned(c) && forall i :: 0 <= i < |ks| ==> Small(ks[i])
    ensures VaArgs(mem, c, ks) == ReadAll(mem, BanksOf(c), ks)
    decreases |ks|
  {
    if ks != [] {
      VaArgTakes(c, ks[0]);
      VaArgsReadBanks(mem, VaArg(c, ks[0]).0, ks[1..]);
    }
  }

  /** What Extract does to the cursor after each argument. */
  function Settle(c: Cursor): Cursor {
    c.(gp := ToU32(Align8(c.gp)), overflow := ToU64(Align8(c.overflow)))
  }

  /** The code reads `n` bytes at `addr` and, once settled, is at `c'`. */
  predicate ReadsAt(mem: Memory, c: Cursor, n: nat, c': Cursor, addr: u64) {
    ReadStream(mem, StreamOf(c), n) == ReadBytes(mem, addr, n) && Settle(Moved(c, n)) == c'
  }

  /** An aligned cursor is settled. */
  lemma SettleAligned(c: Cursor)
    requires c.gp % 8 == 0 && c.overflow % 8 == 0
    ensures Settle(c) == c
  {
    assert Align8(c.gp) == c.gp && Align8(c.overflow) == c.overflow;
  }

  /** After up to 8 bytes of the overflow area the cursor settles behind one slot. */
  lemma SettleOverflow(c: Cursor, n: nat)
    requires Aligned(c) && 1 <= n <= 8
    ensures Settle(c.(overflow := ToU64(c.overflow + n))) == c.(overflow := ToU64(c.overflow + 8))
  {
    OneSlotU64(c.overflow, n);
    assert Align8(c.gp) == c.gp;
  }

  lemma SmallInRegs(mem: Memory, c: Cursor, n: nat)
    requires Aligned(c) && 1 <= n <= 8 && c.gp < GENERAL_OFFSET_MAX
    ensures n <= StreamOf(c).rest
    ensures ReadsAt(mem, c, n, c.(gp := c.gp + 8), ToU64(c.area + c.gp))
  {
    EmptyTail(mem, StreamOf(c), n);
    OneSlot(c.gp, n);
    assert ToU64(c.overflow) == c.overflow && Align8(c.overflow) == c.overflow;
  }

  lemma SmallInOverflow(mem: Memory, c: Cursor, n: nat)
    requires Aligned(c) && 1 <= n <= 8 && c.gp >= GENERAL_OFFSET_MAX
    ensures ReadsAt(mem, c, n, c.(overflow := ToU64(c.overflow + 8)), c.overflow)
  {
    OnlyStack(mem, StreamOf(c), n);
    assert Moved(c, n) == c.(overflow := ToU64(c.overflow + n));
    SettleOverflow(c, n);
  }

  /** For a small argument the aligned code never splits, and reads where the standard says. */
  lemma SmallReadAgrees(mem: Memory, c: Cursor, k: Kind)
    requires Aligned(c) && Small(k) && !k.Double?
    ensures StreamOf(c).rest == 0 || SizeOf(k) <= StreamOf(c).rest
    ensures ReadsAt(mem, c, SizeOf(k), VaArg(c, k).0, VaArg(c, k).1)
  {
    if c.gp < GENERAL_OFFSET_MAX {
      SmallInRegs(mem, c, SizeOf(k));
    } else {
      SmallInOverflow(mem, c, SizeOf(k));
      OneSlot(c.overflow, SizeOf(k));
    }
  }

  /** The slot `ReadDouble` reads, and the cursor after it. */
  function DoubleAddr(c: Cursor): u64 { if c.fp >= XMM_OFFSET_MAX then c.overflow else ToU64(c.area + c.fp) }

  function DoublePassed(c: Cursor): Cursor {
    if c.fp >= XMM_OFFSET_MAX then c.(overflow := ToU64(c.overflow + 8)) else c.(fp := c.fp + 16)
  }

  /** The same for a double. */
  lemma DoubleAgrees(c: Cursor)
    requires Aligned(c)
    ensures (Settle(DoublePassed(c)), DoubleAddr(c)) == VaArg(c, Double)
  {
    if c.fp >= 176 {
      OneSlot(c.overflow, 8);
      SettleOverflow(c, 8);
    } else {
      SlotsLeft(c.fp - 176, 16);
      assert DoublePassed(c) == c.(fp := c.fp + 16);
      SettleAligned(c.(fp := c.fp + 16));
    }
  }

  // What the code does with any argument, aligned or not

  /** The cursor after `Read` of `n` bytes, also when it fails. */
  function ReadPassed(mem: Memory, c: Cursor, n: nat): Cursor {
    var s := StreamOf(c);
    if 0 < s.rest < n && !Readable(mem, s.base, s.rest) then c else Moved(c, n)
  }

  /** What decoding one argument gives. */
  function Fetch(mem: Memory, c: Cursor, k: Kind): Outcome<seq<u8>> {
    if k.Double? then ReadBytes(mem, DoubleAddr(c), 8) else ReadStream(mem, StreamOf(c), SizeOf(k))
  }

  /** The cursor after decoding one argument, before it is settled. */
  function Passed(mem: Memory, c: Cursor, k: Kind): Cursor {
    if k.Double? then DoublePassed(c) else ReadPassed(mem, c, SizeOf(k))
  }

  /** What `Extract` returns. */
  function Extracted(mem: Memory, c: Cursor, ks: seq<Kind>): Outcome<seq<seq<u8>>>
    decreases |ks|
  {
    if ks == [] then Ok([])
    else
      match Fetch(mem, c, ks[0])
      case Fault => Fault
      case Ok(v) => Behind([v], Extracted(mem, Settle(Passed(mem, c, ks[0])), ks[1..]))
  }

  /** Where `Extract` leaves the cursor; a failed decode leaves it unsettled. */
  function Left(mem: Memory, c: Cursor, ks: seq<Kind>): Cursor
    decreases |ks|
  {
    if ks == [] then c
    else if Fetch(mem, c, ks[0]).Fault? then Passed(mem, c, ks[0])
    else Left(mem, Settle(Passed(mem, c, ks[0])), ks[1..])
  }

  /** On an aligned list one round of `Extract` is one va_arg call. */
  lemma RoundAgrees(mem: Memory, c: Cursor, k: Kind)
    requires Aligned(c) && Small(k)
    ensures var (c', addr) := VaArg(c, k);
            Fetch(mem, c, k) == ReadBytes(mem, addr, SizeOf(k)) && Settle(Passed(mem, c, k)) == c'
  {
    if k.Double? {
      DoubleAgrees(c);
    } else {
      SmallReadAgrees(mem, c, k);
    }
  }

  /** On an aligned list `Extract` finds what successive va_arg calls find, and leaves the cursor where they do. */
  lemma {:induction false} ExtractAgrees(mem: Memory, c: Cursor, ks: seq<Kind>)
    requires Aligned(c) && forall i :: 0 <= i < |ks| ==> Small(ks[i])
    ensures Extracted(mem, c, ks) == VaArgs(mem, c, ks)
    ensures Extracted(mem, c, ks).Ok? ==> Left(mem, c, ks) == After(c, ks)
    decreases |ks|
  {
    if ks != [] {
      RoundAgrees(mem, c, ks[0]);
      VaArgTakes(c, ks[0]);
      ExtractAgrees(mem, VaArg(c, ks[0]).0, ks[1..]);
    }
  }

  /** Laying out any list of small arguments and extracting them gives back the same list. */
  lemma ExtractRoundTrip(mem: Memory, c: Cursor, args: seq<Arg>)
    requires Aligned(c) && Roomy(BanksOf(c), |args|) && forall i :: 0 <= i < |args| ==> ValidArg(args[i])
    ensures var mem' := LayOut(mem, BanksOf(c), args, |args|);
            Extracted(mem', c, Kinds(args)) == Ok(Values(args)) && Left(mem', c, Kinds(args)) == After(c, Kinds(args))
  {
    var mem' := LayOut(mem, BanksOf(c), args, |args|);
    RoundTrip(mem, BanksOf(c), args);
    VaArgsReadBanks(mem', c, Kinds(args));
    ExtractAgrees(mem', c, Kinds(args));
  }

  lemma ReadInOverflow(mem: Memory, c: Cursor, n: nat)
    requires c.gp >= GENERAL_OFFSET_MAX
    ensures StreamReadable(mem, StreamOf(c), n) <==> Readable(mem, c.overflow, n)
    ensures StreamReadable(mem, StreamOf(c), n) ==> StreamBytes(mem, StreamOf(c), n) == Bytes(mem, c.overflow, n)
    ensures ReadPassed(mem, c, n) == c.(overflow := ToU64(c.overflow + n))
  {
    OnlyStack(mem, StreamOf(c), n);
  }

  lemma ReadInRegs(mem: Memory, c: Cursor, n: nat)
    requires n + c.gp <= GENERAL_OFFSET_MAX
    ensures var a := ToU64(c.area + c.gp);
            && (StreamReadable(mem, StreamOf(c), n) <==> Readable(mem, a, n))
            && (StreamReadable(mem, StreamOf(c), n) ==> StreamBytes(mem, StreamOf(c), n) == Bytes(mem, a, n))
    ensures ReadPassed(mem, c, n) == c.(gp := ToU32(c.gp + n))
  {
    EmptyTail(mem, StreamOf(c), n);
  }

  // Where the code and the standard part

  /** `Skip`; a negative `n` moves back. */
  function Skipped(c: Cursor, n: i64): Cursor {
    if c.gp < GENERAL_OFFSET_MAX then c.(gp := ToU32(c.gp + ToU32(n))) else c.(overflow := ToU64(c.overflow + ToU64(n)))
  }

  /** Skipping within the registers, or when none are left, is moving. */
  lemma SkipMoves(c: Cursor, n: i64)
    requires n >= 0 && (c.gp >= GENERAL_OFFSET_MAX || c.gp + n <= GENERAL_OFFSET_MAX)
    ensures Skipped(c, n) == Moved(c, n)
  {
  }

  /** A skip that would have to cross leaves the overflow area where it is. */
  lemma SkipStays(c: Cursor, n: i64)
    requires c.gp < GENERAL_OFFSET_MAX < c.gp + n
    ensures StreamOf(Skipped(c, n)).stack != Advance(StreamOf(c), n).stack
  {
    ToU64Moves(c.overflow, n - (GENERAL_OFFSET_MAX - c.gp));
  }

  /** Skipping back over what was read, within one area. */
  lemma SkipReturns(c: Cursor, n: int)
    requires 0 <= n <= TWO63 && (c.gp >= GENERAL_OFFSET_MAX || c.gp + n < GENERAL_OFFSET_MAX)
    ensures Skipped(Moved(c, n), 0 - n) == c
  {
    if c.gp >= GENERAL_OFFSET_MAX {
      ToU64Back(c.overflow, n);
    } else {
      assert Moved(c, n) == c.(gp := c.gp + n);
      assert n > 0 ==> ToU32(0 - n) == TWO32 - n;
    }
  }

  /**
   Skipping forwards is the same as reading and discarding exactly when it does not leave the register area;
   skipping backwards undoes a read of as many bytes exactly when that read did not use up the register area.
   */
  lemma SkipAgreesIff(c: Cursor, n: i64)
    ensures n >= 0 ==>
              (StreamOf(Skipped(c, n)) == Advance(StreamOf(c), n)
               <==> (c.gp >= 48 || c.gp + n <= 48))
    ensures n <= 0 ==>
              (Skipped(Moved(c, 0 - n), n) == c <==> (c.gp >= 48 || c.gp - n < 48))
  {
    if n >= 0 {
      if c.gp >= GENERAL_OFFSET_MAX || c.gp + n <= GENERAL_OFFSET_MAX {
        SkipMoves(c, n);
        MovedStream(c, n);
      } else {
        SkipStays(c, n);
      }
    }
    if n <= 0 && (c.gp >= GENERAL_OFFSET_MAX || c.gp - n < GENERAL_OFFSET_MAX) {
      SkipReturns(c, 0 - n);
    }
  }

  /** A cursor with one register left: skipping two of them moves past the registers and leaves the overflow area. */
  lemma SkipSplit()
    ensures var c := Cursor(40, 176, 0x2000, 0x1000);
            StreamOf(Skipped(c, 16)) != Advance(StreamOf(c), 16)
  {
    SkipAgreesIff(Cursor(40, 176, 0x2000, 0x1000), 16);
  }

  function RoundIf(x: int, aligned16: bool): int { if aligned16 then Align16(x) else x }

  /**
   An integer type or aggregate of more than 8 bytes, whose alignment may be 16. Up to 16 bytes the standard
   takes it from two registers if both are left. Otherwise, and always above 16 bytes, it is in the overflow
   area, which is rounded up first.
   */
  function WideAddr(c: Cursor, size: nat, aligned16: bool): u64 {
    if size <= 16 && c.gp + 16 <= 48 then ToU64(c.area + c.gp)
    else ToU64(RoundIf(c.overflow, aligned16))
  }

  /**
   It is in the registers for the standard too, or no registers are left and the overflow area needs no
   rounding. (An argument that the code takes from the registers and the standard from the overflow area
   can still be right only where the two areas are the same memory.)
   */
  predicate WideFits(c: Cursor, size: nat, aligned16: bool) {
    if c.gp >= 48 then aligned16 ==> c.overflow % 16 == 0
    else if size <= 16 && c.gp + 16 <= 48 then true
    else c.gp + size <= 48 && StreamOf(c).base == WideAddr(c, size, aligned16)
  }

  lemma WidePiece(c: Cursor, size: nat, aligned16: bool)
    requires size > 8
    ensures InOnePiece(StreamOf(c), WideAddr(c, size, aligned16), size) <==> WideFits(c, size, aligned16)
  {
    OnePieceAreas(StreamOf(c), WideAddr(c, size, aligned16), size);
    ToU64Round(c.overflow, RoundIf(c.overflow, aligned16));
  }

  /** The code reads a wide argument as the standard does, in every memory, exactly when it fits. */
  lemma WideAgreesIff(c: Cursor, size: nat, aligned16: bool)
    requires size > 8 && WideAddr(c, size, aligned16) + size <= TWO64
    ensures (forall mem: Memory :: ReadStream(mem, StreamOf(c), size) == ReadBytes(mem, WideAddr(c, size, aligned16), size))
            <==> WideFits(c, size, aligned16)
  {
    SameReadsIff(StreamOf(c), WideAddr(c, size, aligned16), size);
    WidePiece(c, size, aligned16);
  }

  /** One register left: the standard takes 16 bytes from the overflow area, the code 8 from each area. */
  lemma WideSplit() returns (mem: Memory)
    ensures var c := Cursor(40, 176, 0x2000, 0x1000);
            ReadStream(mem, StreamOf(c), 16) != ReadBytes(mem, WideAddr(c, 16, false), 16)
  {
    var c := Cursor(40, 176, 0x2000, 0x1000);
    WideAgreesIff(c, 16, false);
    mem :| ReadStream(mem, StreamOf(c), 16) != ReadBytes(mem, WideAddr(c, 16, false), 16);
  }

  /** All registers left, but the argument is too large for them: the code reads 24 bytes of the save area. */
  lemma LargeInRegisters() returns (mem: Memory)
    ensures var c := Cursor(0, 48, 0x2000, 0x1000);
            ReadStream(mem, StreamOf(c), 24) != ReadBytes(mem, WideAddr(c, 24, false), 24)
  {
    var c := Cursor(0, 48, 0x2000, 0x1000);
    WideAgreesIff(c, 24, false);
    mem :| ReadStream(mem, StreamOf(c), 24) != ReadBytes(mem, WideAddr(c, 24, false), 24);
  }

  /** The reader object: it walks over the areas by updating its fields in place. */
  class List {
    const mem: Memory
    const area: u64
    var gp: u32
    var fp: u32
    var overflow: u64

    constructor (mem: Memory, c: Cursor)
      ensures this.mem == mem && View() == c
    {
      this.mem, area := mem, c.area;
      gp, fp, overflow := c.gp, c.fp, c.overflow;
    }

    function View(): Cursor
      reads this
    {
      Cursor(gp, fp, overflow, area)
    }

    /**
     `Read` fills `b[..n]` from the stream. When the read spans both areas and the register
     part is unreadable the cursor stays; otherwise it moves on, even if the read fails.
     */
    method Read(b: array<u8>, n: nat) returns (ok: bool)
      requires n <= b.Length
      modifies this, b
      ensures ok <==> StreamReadable(mem, StreamOf(old(View())), n)
      ensures ok ==> b[..n] == StreamBytes(mem, StreamOf(old(View())), n)
      ensures ok ==> forall k :: n <= k < b.Length ==> b[k] == old(b[k])
      ensures View() == ReadPassed(mem, old(View()), n)
      ensures var s := StreamOf(old(View()));
              View() == if 0 < s.rest < n && !Readable(mem, s.base, s.rest) then old(View()) else Moved(old(View()), n)
    {
      ghost var c := View();
      if gp >= GENERAL_OFFSET_MAX {
        ReadInOverflow(mem, c, n);
        ok := MemReadPtr(mem, overflow, n, b, 0);
        overflow := ToU64(overflow + n);
        assert b[..n] == b[0..0 + n];
      } else if n + gp <= GENERAL_OFFSET_MAX {
        ReadInRegs(mem, c, n);
        ok := MemReadPtr(mem, ToU64(area + gp), n, b, 0);
        gp := ToU32(gp + n);
        assert b[..n] == b[0..0 + n];
      } else {
        ok := ReadAcross(b, n);
      }
    }

    /** The third branch of `Read`: the rest of the registers, and then the overflow area. */
    method ReadAcross(b: array<u8>, n: nat) returns (ok: bool)
      requires n <= b.Length && gp < GENERAL_OFFSET_MAX < n + gp
      modifies this, b
      ensures ok <==> StreamReadable(mem, StreamOf(old(View())), n)
      ensures ok ==> b[..n] == StreamBytes(mem, StreamOf(old(View())), n)
      ensures ok ==> forall k :: n <= k < b.Length ==> b[k] == old(b[k])
      ensures View() == ReadPassed(mem, old(View()), n)
    {
      var i := GENERAL_OFFSET_MAX - gp;
      ok := MemReadPtr(mem, ToU64(area + gp), i, b, 0);
      if !ok {
        return;
      }
      ghost var head := b[..i];
      assert head == b[0..0 + i];
      gp := GENERAL_OFFSET_MAX;
      var x := n - i;
      ok := MemReadPtr(mem, overflow, x, b, i);
      overflow := ToU64(overflow + x);
      assert b[..n] == b[..i] + b[i..i + x] && b[..i] == head;
    }

    /** Successive reads, as the decoder makes them for the parts of a value. */
    method ReadParts(sizes: seq<nat>) returns (bs: seq<u8>, ok: bool)
      modifies this
      ensures (if ok then Ok(bs) else Fault) == ReadChunks(mem, StreamOf(old(View())), sizes)
      ensures NoWrap(StreamOf(old(View())), Sum(sizes)) ==>
                (if ok then Ok(bs) else Fault) == ReadStream(mem, StreamOf(old(View())), Sum(sizes))
      ensures ok ==> View() == Moved(old(View()), Sum(sizes))
    {
      ghost var c0 := View();
      bs, ok := [], true;
      assert sizes[0..] == sizes;
      JoinedNone(ReadChunks(mem, StreamOf(c0), sizes));
      ChunksAgree(mem, StreamOf(c0), sizes);
      MovedFolds(c0, sizes);
      for i := 0 to |sizes|
        invariant ok && ReadChunks(mem, StreamOf(c0), sizes) == Joined(bs, ReadChunks(mem, StreamOf(View()), sizes[i..]))
        invariant MovedAll(c0, sizes) == MovedAll(View(), sizes[i..])
      {
        ghost var c := View();
        assert sizes[i..][0] == sizes[i] && sizes[i..][1..] == sizes[i + 1..];
        MovedStream(c, sizes[i]);
        var b := new u8[sizes[i]];
        ok := Read(b, sizes[i]);
        if !ok {
          return;
        }
        assert b[..] == b[..sizes[i]];
        JoinedTwice(bs, b[..], ReadChunks(mem, StreamOf(View()), sizes[i + 1..]));
        bs := bs + b[..];
      }
      assert bs + [] == bs;
    }

    /** `ReadDouble` takes the next vector slot, or the overflow area; the cursor moves on even if the read fails. */
    method ReadDouble(b: array<u8>) returns (ok: bool)
      requires b.Length == 8
      modifies this, b
      ensures (if ok then Ok(b[..]) else Fault) == Fetch(mem, old(View()), Double)
      ensures View() == DoublePassed(old(View()))
      ensures var addr := if old(fp) < 176 then ToU64(area + old(fp)) else old(overflow);
              (if ok then Ok(b[..]) else Fault) == ReadBytes(mem, addr, 8)
    {
      if fp >= XMM_OFFSET_MAX {
        ok := MemReadPtr(mem, overflow, 8, b, 0);
        overflow := ToU64(overflow + 8);
        assert b[..] == b[0..8];
        return;
      }
      ok := MemReadPtr(mem, ToU64(area + fp), 8, b, 0);
      fp := ToU32(fp + 16);
      assert b[..] == b[0..8];
    }

    /** `Skip` moves within one area only. */
    method Skip(n: i64)
      modifies this
      ensures View() == Skipped(old(View()), n)
    {
      if gp < GENERAL_OFFSET_MAX {
        gp := ToU32(gp + ToU32(n));
      } else {
        overflow := ToU64(overflow + ToU64(n));
      }
    }

    /** `ReadStream` reads the pointer that the caller then follows. */
    method ReadPointer(b: array<u8>) returns (ok: bool)
      requires b.Length == 8
      modifies this, b
      ensures (if ok then Ok(b[..]) else Fault) == Fetch(mem, old(View()), Pointer)
      ensures View() == Passed(mem, old(View()), Pointer)
    {
      ok := Read(b, 8);
      assert b[..] == b[..8];
    }

    /** One round of `Extract`: decode an argument, then align the general offset and the overflow area. */
    method ExtractOne(k: Kind) returns (v: seq<u8>, ok: bool)
      modifies this
      ensures (if ok then Ok(v) else Fault) == Fetch(mem, old(View()), k)
      ensures View() == if ok then Settle(Passed(mem, old(View()), k)) else Passed(mem, old(View()), k)
      ensures Aligned(old(View())) && Small(k) ==>
                var (c', addr) := VaArg(old(View()), k);
                (if ok then Ok(v) else Fault) == ReadBytes(mem, addr, SizeOf(k)) && (ok ==> View() == c')
    {
      ghost var c := View();
      var b := new u8[SizeOf(k)];
      match k {
        case Double => ok := ReadDouble(b);
        case Pointer => ok := ReadPointer(b);
        case Scalar(n) => ok := Read(b, n); assert b[..] == b[..n];
      }
      v := b[..];
      if ok {
        gp := ToU32(Align8(gp));
        overflow := ToU64(Align8(overflow));
      }
      if Aligned(c) && Small(k) {
        RoundAgrees(mem, c, k);
      }
    }

    /**
     `Extract`: the values and the cursor for every list, and on an aligned `va_list` what successive
     va_arg calls of the standard give.
     */
    method Extract(ks: seq<Kind>) returns (vals: seq<seq<u8>>, ok: bool)
      modifies this
      ensures (if ok then Ok(vals) else Fault) == Extracted(mem, old(View()), ks)
      ensures View() == Left(mem, old(View()), ks)
      ensures Aligned(old(View())) && (forall i :: 0 <= i < |ks| ==> Small(ks[i])) ==>
                (if ok then Ok(vals) else Fault) == VaArgs(mem, old(View()), ks) && (ok ==> View() == After(old(View()), ks))
    {
      vals, ok := [], true;
      ghost var c0 := View();
      assert ks[0..] == ks;
      BehindNone(Extracted(mem, c0, ks));
      if Aligned(c0) && forall i :: 0 <= i < |ks| ==> Small(ks[i]) {
        ExtractAgrees(mem, c0, ks);
      }
      for i := 0 to |ks|
        invariant ok && Extracted(mem, c0, ks) == Behind(vals, Extracted(mem, View(), ks[i..]))
        invariant Left(mem, c0, ks) == Left(mem, View(), ks[i..])
      {
        assert ks[i..][0] == ks[i] && ks[i..][1..] == ks[i + 1..];
        var v;
        v, ok := ExtractOne(ks[i]);
        if !ok {
          return;
        }
        BehindOne(vals, v, Extracted(mem, View(), ks[i + 1..]));
        vals := vals + [v];
      }
      assert vals + [] == vals;
    }
  }

  /** Running `Extract` over memory that a caller has laid out returns the arguments, and stops behind the last one. */
  method ExtractLaidOut(mem: Memory, c: Cursor, args: seq<Arg>) returns (vals: seq<seq<u8>>, end: Cursor)
    requires Aligned(c) && Roomy(BanksOf(c), |args|) && forall i :: 0 <= i < |args| ==> ValidArg(args[i])
    ensures vals == Values(args) && end == After(c, Kinds(args))
  {
    ExtractRoundTrip(mem, c, args);
    var list := new List(LayOut(mem, BanksOf(c), args, |args|), c);
    var ok;
    vals, ok := list.Extract(Kinds(args));
    end := list.View();
  }
}
