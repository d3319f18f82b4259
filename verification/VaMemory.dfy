/** Guest memory as the argument readers see it, and the byte stream that a split argument area stands for. */
module VaMemory {
  import opened Machine

  /** The mapped bytes, by address. */
  type Memory = map<int, u8>

  datatype Outcome<T> = Ok(value: T) | Fault

  /** All `n` bytes from `addr` on are mapped and lie below the end of the address space. */
  predicate Readable(mem: Memory, addr: int, n: nat) {
    addr + n <= TWO64 && forall k :: addr <= k < addr + n ==> k in mem
  }

  function Bytes(mem: Memory, addr: int, n: nat): (bs: seq<u8>)
    requires Readable(mem, addr, n)
    ensures |bs| == n && forall k :: 0 <= k < n ==> bs[k] == mem[addr + k]
  {
    seq(n, k requires 0 <= k < n => mem[addr + k])
  }

  function ReadBytes(mem: Memory, addr: int, n: nat): Outcome<seq<u8>> {
    if Readable(mem, addr, n) then Ok(Bytes(mem, addr, n)) else Fault
  }

  predicate StoredAt(mem: Memory, addr: int, bs: seq<u8>, x: nat)
    requires x < |bs|
  {
    addr + x in mem && mem[addr + x] == bs[x]
  }

  /** The bytes `bs` are stored from `addr` on. */
  ghost predicate Holds(mem: Memory, addr: int, bs: seq<u8>) {
    addr + |bs| <= TWO64 && forall x: nat :: x < |bs| ==> StoredAt(mem, addr, bs, x)
  }

  lemma HoldsRead(mem: Memory, addr: int, bs: seq<u8>)
    requires Holds(mem, addr, bs)
    ensures ReadBytes(mem, addr, |bs|) == Ok(bs)
  {
    forall k | addr <= k < addr + |bs| ensures k in mem && mem[k] == bs[k - addr] {
      assert StoredAt(mem, addr, bs, k - addr);
    }
    assert Bytes(mem, addr, |bs|) == bs;
  }

  /** `MemReadPtr`: copies `n` guest bytes to `b[off..off + n]`, or fails and copies nothing. */
  method MemReadPtr(mem: Memory, addr: u64, n: nat, b: array<u8>, off: nat) returns (ok: bool)
    requires off + n <= b.Length
    modifies b
    ensures ok <==> Readable(mem, addr, n)
    ensures ok ==> b[off..off + n] == Bytes(mem, addr, n)
    ensures forall k :: 0 <= k < b.Length && !(off <= k < off + n && ok) ==> b[k] == old(b[k])
  {
    ok := Readable(mem, addr, n);
    if ok {
      for j := 0 to n
        invariant forall x :: off <= x < off + j ==> b[x] == mem[addr + (x - off)]
        invariant forall k :: 0 <= k < b.Length && !(off <= k < off + j) ==> b[k] == old(b[k])
      {
        b[off + j] := mem[addr + j];
      }
    }
  }

  lemma BytesSplit(mem: Memory, addr: int, n: nat, m: nat)
    ensures Readable(mem, addr, n + m) <==>
              Readable(mem, addr, n) && Readable(mem, addr + n, m) && addr + n + m <= TWO64
    ensures Readable(mem, addr, n + m) ==> Bytes(mem, addr, n + m) == Bytes(mem, addr, n) + Bytes(mem, addr + n, m)
  {
  }

  /**
   What is left to read of an argument area that is split in two: `rest` bytes of saved general
   registers from `base` on, and then the stack.
   */
  datatype Stream = Stream(base: u64, rest: nat, stack: u64)

  /** The part of a read of `n` bytes that the register area still covers. */
  function InRegs(s: Stream, n: nat): nat { if n <= s.rest then n else s.rest }

  function Advance(s: Stream, n: nat): Stream {
    var g := InRegs(s, n);
    Stream(ToU64(s.base + g), s.rest - g, ToU64(s.stack + (n - g)))
  }

  predicate StreamReadable(mem: Memory, s: Stream, n: nat) {
    var g := InRegs(s, n);
    Readable(mem, s.base, g) && Readable(mem, s.stack, n - g)
  }

  function StreamBytes(mem: Memory, s: Stream, n: nat): (bs: seq<u8>)
    requires StreamReadable(mem, s, n)
    ensures |bs| == n
  {
    var g := InRegs(s, n);
    Bytes(mem, s.base, g) + Bytes(mem, s.stack, n - g)
  }

  function ReadStream(mem: Memory, s: Stream, n: nat): Outcome<seq<u8>> {
    if StreamReadable(mem, s, n) then Ok(StreamBytes(mem, s, n)) else Fault
  }

  /** The address of byte `k` of the stream. */
  function StreamAddr(s: Stream, k: nat): int {
    if k < s.rest then s.base + k else s.stack + (k - s.rest)
  }

  /** Byte `k` of a read is the byte stored at the address of byte `k`. */
  lemma StreamByte(mem: Memory, s: Stream, n: nat, k: nat)
    requires StreamReadable(mem, s, n) && k < n
    ensures StreamAddr(s, k) in mem && StreamBytes(mem, s, n)[k] == mem[StreamAddr(s, k)]
  {
  }

  /** The first `n` bytes of the stream lie in one piece from `addr` on. */
  ghost predicate InOnePiece(s: Stream, addr: u64, n: nat) {
    forall k: nat :: k < n ==> StreamAddr(s, k) == addr + k
  }

  lemma OnePieceAreas(s: Stream, addr: u64, n: nat)
    ensures InOnePiece(s, addr, n) <==>
              var g := InRegs(s, n); (g > 0 ==> s.base == addr) && (n > g ==> s.stack == addr + g)
  {
    var g := InRegs(s, n);
    if InOnePiece(s, addr, n) {
      assert g > 0 ==> StreamAddr(s, 0) == addr + 0;
      assert n > g ==> StreamAddr(s, g) == addr + g;
    }
  }

  lemma OnePieceReads(mem: Memory, s: Stream, addr: u64, n: nat)
    requires addr + n <= TWO64 && InOnePiece(s, addr, n)
    ensures ReadStream(mem, s, n) == ReadBytes(mem, addr, n)
  {
    var g := InRegs(s, n);
    OnePieceAreas(s, addr, n);
    BytesSplit(mem, addr, g, n - g);
  }

  /** A memory with a single byte that is not zero. */
  ghost function Marked(a: int): Memory { map x: int | 0 <= x < TWO64 :: Mark(a, x) }

  function Mark(a: int, x: int): u8 { if x == a then 1 else 0 }

  /** Reading the stream is the same as reading at `addr`, in every memory, exactly when the addresses are the same. */
  lemma SameReadsIff(s: Stream, addr: u64, n: nat)
    requires addr + n <= TWO64
    ensures (forall mem: Memory :: ReadStream(mem, s, n) == ReadBytes(mem, addr, n)) <==> InOnePiece(s, addr, n)
  {
    if InOnePiece(s, addr, n) {
      forall mem: Memory ensures ReadStream(mem, s, n) == ReadBytes(mem, addr, n) {
        OnePieceReads(mem, s, addr, n);
      }
    } else {
      var k: nat :| k < n && StreamAddr(s, k) != addr + k;
      TellsApart(s, addr, n, k);
    }
  }

  lemma TellsApart(s: Stream, addr: u64, n: nat, k: nat)
    requires addr + n <= TWO64 && k < n && StreamAddr(s, k) != addr + k
    ensures ReadStream(Marked(addr + k), s, n) != ReadBytes(Marked(addr + k), addr, n)
  {
    var mem := Marked(addr + k);
    assert ReadBytes(mem, addr, n).Ok? && Bytes(mem, addr, n)[k] == 1;
    if StreamReadable(mem, s, n) {
      StreamByte(mem, s, n, k);
    }
  }

  /** A read of `n` bytes does not run over the end of the address space. */
  predicate NoWrap(s: Stream, n: nat) {
    var g := InRegs(s, n);
    s.base + g <= TWO64 && s.stack + (n - g) <= TWO64
  }

  lemma AdvanceAdds(s: Stream, n: nat, m: nat)
    ensures Advance(Advance(s, n), m) == Advance(s, n + m)
  {
    var g := InRegs(s, n);
    var h := InRegs(Advance(s, n), m);
    assert InRegs(s, n + m) == g + h;
    ToU64Add(s.base + g, h);
    ToU64Add(s.stack + (n - g), m - h);
  }

  /** A read within the registers reads no stack. */
  lemma EmptyTail(mem: Memory, s: Stream, n: nat)
    requires n <= s.rest
    ensures StreamReadable(mem, s, n) <==> Readable(mem, s.base, n)
    ensures StreamReadable(mem, s, n) ==> StreamBytes(mem, s, n) == Bytes(mem, s.base, n)
  {
  }

  /** When no register bytes are left a read is a read of the stack. */
  lemma OnlyStack(mem: Memory, s: Stream, n: nat)
    requires s.rest == 0
    ensures StreamReadable(mem, s, n) <==> Readable(mem, s.stack, n)
    ensures StreamReadable(mem, s, n) ==> StreamBytes(mem, s, n) == Bytes(mem, s.stack, n)
  {
    if StreamReadable(mem, s, n) {
      assert Bytes(mem, s.base, 0) == [];
    }
  }

  /** A read of one area cut in two, with the address of the second part wrapping around. */
  lemma AreaSplit(mem: Memory, a: u64, n: nat, m: nat)
    ensures Readable(mem, a, n + m) <==>
              a + n + m <= TWO64 && Readable(mem, a, n) && Readable(mem, ToU64(a + n), m)
    ensures Readable(mem, a, n + m) ==> Bytes(mem, a, n + m) == Bytes(mem, a, n) + Bytes(mem, ToU64(a + n), m)
  {
    if a + n < TWO64 {
      assert ToU64(a + n) == a + n;
      BytesSplit(mem, a, n, m);
    } else if m == 0 {
      assert Bytes(mem, ToU64(a + n), 0) == [];
    }
  }

  /** Cutting a read of the stream in two is right. */
  ghost predicate Splits(mem: Memory, s: Stream, n: nat, m: nat) {
    && (StreamReadable(mem, s, n + m) <==>
          NoWrap(s, n + m) && StreamReadable(mem, s, n) && StreamReadable(mem, Advance(s, n), m))
    && (StreamReadable(mem, s, n + m) ==>
          StreamBytes(mem, s, n + m) == StreamBytes(mem, s, n) + StreamBytes(mem, Advance(s, n), m))
  }

  lemma SplitInRegs(mem: Memory, s: Stream, n: nat, m: nat)
    requires n + m <= s.rest
    ensures Splits(mem, s, n, m)
  {
    AreaSplit(mem, s.base, n, m);
    EmptyTail(mem, s, n);
    EmptyTail(mem, s, n + m);
    EmptyTail(mem, Advance(s, n), m);
  }

  lemma SplitAcross(mem: Memory, s: Stream, n: nat, m: nat)
    requires n <= s.rest < n + m
    ensures Splits(mem, s, n, m)
  {
    var h, k := s.rest - n, n + m - s.rest;
    AreaSplit(mem, s.base, n, h);
    EmptyTail(mem, s, n);
    assert n + h == s.rest && Advance(s, n) == Stream(ToU64(s.base + n), h, s.stack) && m - h == k;
    if StreamReadable(mem, s, n + m) {
      ThreeParts(Bytes(mem, s.base, n), Bytes(mem, ToU64(s.base + n), h), Bytes(mem, s.stack, k));
    }
  }

  lemma SplitOnStack(mem: Memory, s: Stream, n: nat, m: nat)
    requires s.rest < n
    ensures Splits(mem, s, n, m)
  {
    var h := n - s.rest;
    AreaSplit(mem, s.stack, h, m);
    SplitTail(mem, s, Advance(s, n), n, m);
  }

  /** The second part of the read begins on the stack, where the first part ended. */
  lemma SplitTail(mem: Memory, s: Stream, s1: Stream, n: nat, m: nat)
    requires s.rest < n && s1.rest == 0
    requires var h := n - s.rest;
             && (Readable(mem, s.stack, h + m) <==>
                   s.stack + h + m <= TWO64 && Readable(mem, s.stack, h) && Readable(mem, s1.stack, m))
             && (Readable(mem, s.stack, h + m) ==>
                   Bytes(mem, s.stack, h + m) == Bytes(mem, s.stack, h) + Bytes(mem, s1.stack, m))
    ensures StreamReadable(mem, s, n + m) <==> NoWrap(s, n + m) && StreamReadable(mem, s, n) && StreamReadable(mem, s1, m)
    ensures StreamReadable(mem, s, n + m) ==> StreamBytes(mem, s, n + m) == StreamBytes(mem, s, n) + StreamBytes(mem, s1, m)
  {
    var h := n - s.rest;
    assert InRegs(s, n + m) == s.rest && n + m - s.rest == h + m;
    OnlyStack(mem, s1, m);
    if StreamReadable(mem, s, n + m) {
      ThreeParts(Bytes(mem, s.base, s.rest), Bytes(mem, s.stack, h), Bytes(mem, s1.stack, m));
    }
  }

  lemma ThreeParts(a: seq<u8>, b: seq<u8>, c: seq<u8>)
    ensures a + (b + c) == a + b + c
  {
  }

  /** Cutting a read in two gives the same bytes; it can succeed more often only by wrapping around. */
  lemma StreamSplit(mem: Memory, s: Stream, n: nat, m: nat)
    ensures Splits(mem, s, n, m)
  {
    if n + m <= s.rest {
      SplitInRegs(mem, s, n, m);
    } else if n <= s.rest {
      SplitAcross(mem, s, n, m);
    } else {
      SplitOnStack(mem, s, n, m);
    }
  }

  function Sum(sizes: seq<nat>): nat {
    if sizes == [] then 0 else sizes[0] + Sum(sizes[1..])
  }

  /** Bytes read earlier, put in front of the outcome of the later reads. */
  function Joined(head: seq<u8>, r: Outcome<seq<u8>>): Outcome<seq<u8>> {
    match r
    case Fault => Fault
    case Ok(bs) => Ok(head + bs)
  }

  lemma JoinedNone(r: Outcome<seq<u8>>)
    ensures Joined([], r) == r
  {
    if r.Ok? {
      assert [] + r.value == r.value;
    }
  }

  lemma JoinedTwice(head: seq<u8>, bs: seq<u8>, r: Outcome<seq<u8>>)
    ensures Joined(head, Joined(bs, r)) == Joined(head + bs, r)
  {
    if r.Ok? {
      assert head + (bs + r.value) == head + bs + r.value;
    }
  }

  /** Successive reads of the given sizes, put together. */
  function ReadChunks(mem: Memory, s: Stream, sizes: seq<nat>): Outcome<seq<u8>>
    decreases |sizes|
  {
    if sizes == [] then Ok([])
    else
      match ReadStream(mem, s, sizes[0])
      case Fault => Fault
      case Ok(head) => Joined(head, ReadChunks(mem, Advance(s, sizes[0]), sizes[1..]))
  }

  function AdvanceChunks(s: Stream, sizes: seq<nat>): Stream
    decreases |sizes|
  {
    if sizes == [] then s else AdvanceChunks(Advance(s, sizes[0]), sizes[1..])
  }

  /**
   However a read is cut into chunks, the cursor ends in the same place, and the bytes are those of
   the single read; the chunks succeed exactly when the single read does, as long as it does not
   run over the end of the address space.
   */
  lemma {:induction false} ChunksAgree(mem: Memory, s: Stream, sizes: seq<nat>)
    ensures AdvanceChunks(s, sizes) == Advance(s, Sum(sizes))
    ensures ReadStream(mem, s, Sum(sizes)).Ok? ==> ReadChunks(mem, s, sizes) == ReadStream(mem, s, Sum(sizes))
    ensures NoWrap(s, Sum(sizes)) ==> ReadChunks(mem, s, sizes) == ReadStream(mem, s, Sum(sizes))
    decreases |sizes|
  {
    if sizes == [] {
      EmptyRead(mem, s);
    } else {
      var n, m := sizes[0], Sum(sizes[1..]);
      ChunksAgree(mem, Advance(s, n), sizes[1..]);
      AdvanceAdds(s, n, m);
      StreamSplit(mem, s, n, m);
      NoWrapTail(s, n, m);
    }
  }

  lemma EmptyRead(mem: Memory, s: Stream)
    ensures Advance(s, 0) == s && ReadStream(mem, s, 0) == Ok([])
  {
  }

  lemma NoWrapTail(s: Stream, n: nat, m: nat)
    ensures NoWrap(s, n + m) ==> NoWrap(Advance(s, n), m)
  {
  }
}
