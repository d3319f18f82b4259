/** The flat argument reader of `gcc/std.go`, used for 32-bit Arm and x86. */
module VaStd {
  import opened Machine
  import opened VaMemory
  import opened VaAbi

  /** The number of bytes that a decoding of the kind reads; a pointer has the list's own size. */
  function WidthOf(k: Kind, size: nat): nat { if k.Pointer? then size else SizeOf(k) }

  /** The pointer after reading `n` bytes and aligning. */
  function Next(ptr: u64, n: nat): u64 { ToU64(Align4(ToU64(ptr + n))) }

  /** A pointer is read into an 8-byte variable that was zero; other values are the bytes read. */
  function Decode(k: Kind, bs: seq<u8>): seq<u8> {
    if k.Pointer? && |bs| <= 8 then bs + seq(8 - |bs|, _ => 0) else bs
  }

  function ReadArgs(mem: Memory, ptr: u64, size: nat, ks: seq<Kind>): Outcome<seq<seq<u8>>>
    decreases |ks|
  {
    if ks == [] then Ok([])
    else
      match ReadBytes(mem, ptr, WidthOf(ks[0], size))
      case Fault => Fault
      case Ok(bs) => Behind([Decode(ks[0], bs)], ReadArgs(mem, Next(ptr, WidthOf(ks[0], size)), size, ks[1..]))
  }

  /** The pointer after `Extract`; a failed decode leaves it unaligned. */
  function EndOf(mem: Memory, ptr: u64, size: nat, ks: seq<Kind>): u64
    decreases |ks|
  {
    if ks == [] then ptr
    else if !Readable(mem, ptr, WidthOf(ks[0], size)) then ToU64(ptr + WidthOf(ks[0], size))
    else EndOf(mem, Next(ptr, WidthOf(ks[0], size)), size, ks[1..])
  }

  /** `Extract` comes to a pointer that does not fit into the variable it is read into. */
  predicate Overruns(mem: Memory, ptr: u64, size: nat, ks: seq<Kind>)
    decreases |ks|
  {
    && ks != [] && Readable(mem, ptr, WidthOf(ks[0], size))
    && ((ks[0].Pointer? && size > 8) || Overruns(mem, Next(ptr, WidthOf(ks[0], size)), size, ks[1..]))
  }

  /** Pointers of at most 8 bytes never overrun. */
  lemma {:induction false} NarrowFits(mem: Memory, ptr: u64, size: nat, ks: seq<Kind>)
    requires size <= 8
    ensures !Overruns(mem, ptr, size, ks)
    decreases |ks|
  {
    if ks != [] {
      NarrowFits(mem, Next(ptr, WidthOf(ks[0], size)), size, ks[1..]);
    }
  }

  /** `word` is `bs` in a variable of 8 bytes. */
  predicate ZeroPadded(bs: seq<u8>, word: seq<u8>) {
    |word| == 8 && bs <= word && forall i :: |bs| <= i < 8 ==> word[i] == 0
  }

  /** `n` bytes are read at `at`, and the next argument is at the least multiple of 4 behind them. */
  predicate Takes(mem: Memory, at: u64, n: nat, next: u64) {
    Readable(mem, at, n) && next == ToU64(Align4(ToU64(at + n)))
  }

  /**
   One argument at `at`, with value `v` and the next one at `next`: a pointer takes exactly `size` bytes and is
   padded with zeros to 8, a double takes 8 bytes and a scalar its own size.
   */
  predicate Spelled(mem: Memory, at: u64, next: u64, size: nat, k: Kind, v: seq<u8>) {
    match k
    case Pointer => Takes(mem, at, size, next) && ZeroPadded(Bytes(mem, at, size), v)
    case Double => Takes(mem, at, 8, next) && v == Bytes(mem, at, 8)
    case Scalar(n) => Takes(mem, at, n, next) && v == Bytes(mem, at, n)
  }

  // The caller's side

  /** A caller pushes a pointer as `size` bytes, a double as 8 and a scalar as many as it has. */
  predicate ValidFlat(a: Arg, size: nat) {
    match a.kind
    case Pointer => |a.bytes| == size
    case Double => |a.bytes| == 8
    case Scalar(n) => |a.bytes| == n
  }

  /** The offset of argument `k`: the sizes before it, each rounded up to a multiple of 4. */
  function Offset(args: seq<Arg>, k: nat): nat
    requires k <= |args|
  {
    if k == 0 then 0 else Offset(args, k - 1) + Align4(|args[k - 1].bytes|)
  }

  /** The memory after the first `k` arguments have been pushed at their offsets. */
  function Push(mem: Memory, ptr: u64, args: seq<Arg>, k: nat): Memory
    requires k <= |args|
  {
    if k == 0 then mem else Write(Push(mem, ptr, args, k - 1), ptr + Offset(args, k - 1), args[k - 1].bytes)
  }

  function Decoded(args: seq<Arg>): (vs: seq<seq<u8>>)
    ensures |vs| == |args| && forall i :: 0 <= i < |args| ==> vs[i] == Decode(args[i].kind, args[i].bytes)
  {
    seq(|args|, i requires 0 <= i < |args| => Decode(args[i].kind, args[i].bytes))
  }

  lemma {:induction false} OffsetMonotone(args: seq<Arg>, j: nat, k: nat)
    requires j < k <= |args|
    ensures Offset(args, j) + Align4(|args[j].bytes|) <= Offset(args, k)
  {
    if j < k - 1 {
      OffsetMonotone(args, j, k - 1);
    }
  }

  /** Argument `i` can be read at its offset. */
  ghost predicate FoundAt(mem: Memory, ptr: u64, args: seq<Arg>, i: nat)
    requires i < |args|
  {
    Holds(mem, ptr + Offset(args, i), args[i].bytes)
  }

  /** Writing argument `k` leaves the arguments before it. */
  lemma PushStep(mem: Memory, ptr: u64, args: seq<Arg>, k: nat, j: nat)
    requires j < k < |args| && FoundAt(mem, ptr, args, j)
    ensures FoundAt(Write(mem, ptr + Offset(args, k), args[k].bytes), ptr, args, j)
  {
    OffsetMonotone(args, j, k);
    WriteElsewhere(mem, ptr + Offset(args, k), args[k].bytes, ptr + Offset(args, j), args[j].bytes);
  }

  lemma PushLast(mem: Memory, ptr: u64, args: seq<Arg>, k: nat)
    requires k < |args| && ptr + Offset(args, |args|) <= TWO64
    ensures FoundAt(Write(mem, ptr + Offset(args, k), args[k].bytes), ptr, args, k)
  {
    OffsetMonotone(args, k, |args|);
    WriteOwn(mem, ptr + Offset(args, k), args[k].bytes);
  }

  /** Pushing the arguments one after the other destroys none of them. */
  lemma {:induction false} PushKeeps(mem: Memory, ptr: u64, args: seq<Arg>, k: nat, j: nat)
    requires j < k <= |args| && ptr + Offset(args, |args|) <= TWO64
    ensures FoundAt(Push(mem, ptr, args, k), ptr, args, j)
    decreases k
  {
    if j == k - 1 {
      PushLast(Push(mem, ptr, args, k - 1), ptr, args, j);
    } else {
      PushKeeps(mem, ptr, args, k - 1, j);
      PushStep(Push(mem, ptr, args, k - 1), ptr, args, k - 1, j);
    }
  }

  lemma {:induction false} OffsetAligned(args: seq<Arg>, k: nat)
    requires k <= |args|
    ensures Offset(args, k) % 4 == 0
  {
    if k > 0 {
      OffsetAligned(args, k - 1);
    }
  }

  lemma NextAligned(a: u64, n: nat)
    requires a % 4 == 0 && a + Align4(n) < TWO64
    ensures Next(a, n) == a + Align4(n)
  {
    Align4Shift(a, n);
  }

  lemma NextOffset(ptr: u64, args: seq<Arg>, k: nat, a: u64, b: u64)
    requires ptr % 4 == 0 && k < |args| && a == ptr + Offset(args, k) && b == ptr + Offset(args, k + 1)
    ensures b == Next(a, |args[k].bytes|)
  {
    OffsetAligned(args, k);
    assert a % 4 == 0 by {
      SumAligned(ptr, Offset(args, k));
    }
    NextAligned(a, |args[k].bytes|);
  }

  lemma SumAligned(x: int, y: int)
    requires x % 4 == 0 && y % 4 == 0
    ensures (x + y) % 4 == 0
  {
  }

  /** The reader at `at` reads the values `vs` and ends at `end`. */
  predicate FlatAt(mem: Memory, at: u64, size: nat, ks: seq<Kind>, vs: seq<seq<u8>>, end: int) {
    ReadArgs(mem, at, size, ks) == Ok(vs) && EndOf(mem, at, size, ks) == end
  }

  lemma ReadFirst(mem: Memory, at: u64, next: u64, size: nat, ks: seq<Kind>, bs: seq<u8>, vs: seq<seq<u8>>, end: int)
    requires ks != [] && ReadBytes(mem, at, WidthOf(ks[0], size)) == Ok(bs) && next == Next(at, WidthOf(ks[0], size))
    requires vs != [] && vs[0] == Decode(ks[0], bs) && FlatAt(mem, next, size, ks[1..], vs[1..], end)
    ensures FlatAt(mem, at, size, ks, vs, end)
  {
    assert [vs[0]] + vs[1..] == vs;
  }

  /** One argument: it is found at the pointer, and the pointer moves on to the next offset. */
  lemma FlatStepAt(mem: Memory, at: u64, next: u64, size: nat, args: seq<Arg>, k: nat, end: int)
    requires k < |args| && ValidFlat(args[k], size) && Holds(mem, at, args[k].bytes)
    requires next == Next(at, |args[k].bytes|) && FlatAt(mem, next, size, Kinds(args)[k + 1..], Decoded(args)[k + 1..], end)
    ensures FlatAt(mem, at, size, Kinds(args)[k..], Decoded(args)[k..], end)
  {
    var ks, vs := Kinds(args)[k..], Decoded(args)[k..];
    assert ks[0] == args[k].kind && ks[1..] == Kinds(args)[k + 1..] && vs[1..] == Decoded(args)[k + 1..];
    HoldsRead(mem, at, args[k].bytes);
    ReadFirst(mem, at, next, size, ks, args[k].bytes, vs, end);
  }

  /** The argument `k` is at `at[k]`, and the reader gets from there to `at[k + 1]`. */
  ghost predicate Along(mem: Memory, at: seq<u64>, size: nat, args: seq<Arg>, k: nat)
    requires k < |args| && |at| == |args| + 1
  {
    ValidFlat(args[k], size) && Holds(mem, at[k], args[k].bytes) && at[k + 1] == Next(at[k], |args[k].bytes|)
  }

  lemma {:induction false} ReadsAlong(mem: Memory, at: seq<u64>, size: nat, args: seq<Arg>, k: nat)
    requires |at| == |args| + 1 && k <= |args| && forall i: nat :: i < |args| ==> Along(mem, at, size, args, i)
    ensures FlatAt(mem, at[k], size, Kinds(args)[k..], Decoded(args)[k..], at[|args|])
    decreases |args| - k
  {
    if k == |args| {
      assert Kinds(args)[k..] == [] && Decoded(args)[k..] == [];
    } else {
      ReadsAlong(mem, at, size, args, k + 1);
      assert Along(mem, at, size, args, k);
      FlatStepAt(mem, at[k], at[k + 1], size, args, k, at[|args|]);
    }
  }

  function Place(ptr: u64, args: seq<Arg>, i: nat): u64
    requires ptr + Offset(args, |args|) < TWO64 && i <= |args|
  {
    OffsetBelow(args, i);
    ptr + Offset(args, i)
  }

  /** The addresses of the arguments, and of the end. */
  function Places(ptr: u64, args: seq<Arg>): (at: seq<u64>)
    requires ptr + Offset(args, |args|) < TWO64
    ensures |at| == |args| + 1 && forall i :: 0 <= i <= |args| ==> at[i] == ptr + Offset(args, i)
  {
    seq(|args| + 1, i requires 0 <= i <= |args| => Place(ptr, args, i))
  }

  lemma OffsetBelow(args: seq<Arg>, k: nat)
    requires k <= |args|
    ensures Offset(args, k) <= Offset(args, |args|)
  {
    if k < |args| {
      OffsetMonotone(args, k, |args|);
    }
  }

  lemma AlongPlaces(mem: Memory, ptr: u64, at: seq<u64>, size: nat, args: seq<Arg>, i: nat)
    requires ptr % 4 == 0 && |at| == |args| + 1 && i < |args| && ValidFlat(args[i], size)
    requires at[i] == ptr + Offset(args, i) && at[i + 1] == ptr + Offset(args, i + 1)
    requires FoundAt(mem, ptr, args, i)
    ensures Along(mem, at, size, args, i)
  {
    NextOffset(ptr, args, i, at[i], at[i + 1]);
  }

  /** The round trip of the flat reader: any list of arguments, pushed from an aligned start, is read back. */
  lemma FlatRoundTrip(mem: Memory, ptr: u64, size: nat, args: seq<Arg>)
    requires ptr % 4 == 0 && ptr + Offset(args, |args|) < TWO64
    requires forall i :: 0 <= i < |args| ==> ValidFlat(args[i], size)
    ensures var mem' := Push(mem, ptr, args, |args|);
            && ReadArgs(mem', ptr, size, Kinds(args)) == Ok(Decoded(args))
            && EndOf(mem', ptr, size, Kinds(args)) == ptr + Offset(args, |args|)
  {
    var mem' := Push(mem, ptr, args, |args|);
    forall i: nat | i < |args| ensures Along(mem', Places(ptr, args), size, args, i) {
      PushKeeps(mem, ptr, args, |args|, i);
      AlongPlaces(mem', ptr, Places(ptr, args), size, args, i);
    }
    ReadsAlong(mem', Places(ptr, args), size, args, 0);
    assert Kinds(args)[0..] == Kinds(args) && Decoded(args)[0..] == Decoded(args);
  }

  function LittleEndian(bs: seq<u8>): nat {
    if bs == [] then 0 else bs[0] + 256 * LittleEndian(bs[1..])
  }

  /** Bytes that stay zero above a value do not change it: a narrow pointer is zero-extended. */
  lemma {:induction false} ZeroExtended(bs: seq<u8>, zeros: seq<u8>)
    requires forall i :: 0 <= i < |zeros| ==> zeros[i] == 0
    ensures LittleEndian(bs + zeros) == LittleEndian(bs)
    decreases |bs| + |zeros|
  {
    if bs != [] {
      assert (bs + zeros)[1..] == bs[1..] + zeros;
      ZeroExtended(bs[1..], zeros);
    } else if zeros != [] {
      assert (bs + zeros)[1..] == bs + zeros[1..];
      ZeroExtended(bs, zeros[1..]);
    }
  }

  /** The reader object. */
  class List {
    const mem: Memory
    const size: nat
    var ptr: u64

    constructor (mem: Memory, ptr: u64, size: nat)
      ensures this.mem == mem && this.ptr == ptr && this.size == size
    {
      this.mem, this.ptr, this.size := mem, ptr, size;
    }

    /** `Read`; the pointer moves on even if the read fails. */
    method Read(b: array<u8>, n: nat) returns (ok: bool)
      requires n <= b.Length
      modifies this, b
      ensures ok <==> Readable(mem, old(ptr), n)
      ensures ok ==> b[..n] == Bytes(mem, old(ptr), n)
      ensures forall k :: n <= k < b.Length ==> b[k] == old(b[k])
      ensures ptr == ToU64(old(ptr) + n)
    {
      ok := MemReadPtr(mem, ptr, n, b, 0);
      ptr := ToU64(ptr + n);
    }

    method Skip(n: i64)
      modifies this
      ensures ptr == ToU64(old(ptr) + n)
    {
      ToU64Add(n, ptr);
      ptr := ToU64(ptr + ToU64(n));
    }

    /**
     `ReadStream` reads `size` bytes into an 8-byte variable that was zero. With a larger size a read
     that succeeds writes past the variable, and nothing is said of what happens then.
     */
    method ReadPointer() returns (word: seq<u8>, ok: bool, overran: bool)
      modifies this
      ensures ok <==> Readable(mem, old(ptr), size)
      ensures overran <==> ok && size > 8
      ensures ok && !overran ==> word == Decode(Pointer, Bytes(mem, old(ptr), size))
      ensures ok && !overran ==> LittleEndian(word) == LittleEndian(Bytes(mem, old(ptr), size))
      ensures ptr == ToU64(old(ptr) + size)
    {
      if size > 8 {
        ok := Readable(mem, ptr, size);
        word, overran, ptr := [], ok, ToU64(ptr + size);
        return;
      }
      var b := new u8[8](_ => 0);
      ok := Read(b, size);
      word, overran := b[..], false;
      if ok {
        assert word == b[..size] + seq(8 - size, _ => 0);
        ZeroExtended(b[..size], seq(8 - size, _ => 0));
      }
    }

    method ExtractOne(k: Kind) returns (v: seq<u8>, ok: bool, overran: bool)
      modifies this
      ensures ok <==> Readable(mem, old(ptr), match k { case Pointer => size case Double => 8 case Scalar(n) => n })
      ensures ok && !overran ==> Spelled(mem, old(ptr), ptr, size, k, v)
      ensures overran <==> ok && k.Pointer? && size > 8
      ensures ok && !overran ==> v == Decode(k, Bytes(mem, old(ptr), WidthOf(k, size)))
      ensures !overran ==> ptr == if ok then Next(old(ptr), WidthOf(k, size)) else ToU64(old(ptr) + WidthOf(k, size))
    {
      if k.Pointer? {
        v, ok, overran := ReadPointer();
      } else {
        var b := new u8[SizeOf(k)];
        ok := Read(b, SizeOf(k));
        v, overran := b[..], false;
        assert b[..] == b[..SizeOf(k)];
      }
      if ok && !overran {
        ptr := ToU64(Align4(ptr));
      }
    }

    /**
     `Extract` finds each argument behind the earlier ones, rounded up to 4, and ends behind the last; `at` are the
     addresses it passes through.
     */
    method Extract(ks: seq<Kind>) returns (vals: seq<seq<u8>>, ok: bool, overran: bool, ghost at: seq<u64>)
      modifies this
      ensures overran <==> Overruns(mem, old(ptr), size, ks)
      ensures !overran ==> (if ok then Ok(vals) else Fault) == ReadArgs(mem, old(ptr), size, ks)
      ensures !overran ==> ptr == EndOf(mem, old(ptr), size, ks)
      ensures ok && !overran ==> |vals| == |ks| && |at| == |ks| + 1 && at[0] == old(ptr) && at[|ks|] == ptr
      ensures ok && !overran ==> forall i :: 0 <= i < |ks| ==> Spelled(mem, at[i], at[i + 1], size, ks[i], vals[i])
    {
      vals, ok, overran, at := [], true, false, [ptr];
      assert ks[0..] == ks;
      BehindNone(ReadArgs(mem, ptr, size, ks));
      for i := 0 to |ks|
        invariant ok && !overran && (Overruns(mem, old(ptr), size, ks) <==> Overruns(mem, ptr, size, ks[i..]))
        invariant ReadArgs(mem, old(ptr), size, ks) == Behind(vals, ReadArgs(mem, ptr, size, ks[i..]))
        invariant EndOf(mem, old(ptr), size, ks) == EndOf(mem, ptr, size, ks[i..])
        invariant |vals| == i && |at| == i + 1 && at[0] == old(ptr) && at[i] == ptr
        invariant forall j :: 0 <= j < i ==> Spelled(mem, at[j], at[j + 1], size, ks[j], vals[j])
      {
        assert ks[i..][0] == ks[i] && ks[i..][1..] == ks[i + 1..];
        var v;
        v, ok, overran := ExtractOne(ks[i]);
        if !ok || overran {
          return;
        }
        BehindOne(vals, v, ReadArgs(mem, ptr, size, ks[i + 1..]));
        vals, at := vals + [v], at + [ptr];
      }
      assert vals + [] == vals;
    }
  }

  /** Running `Extract` over arguments that were pushed returns them, and stops behind the last one. */
  method ExtractPushed(mem: Memory, ptr: u64, size: nat, args: seq<Arg>) returns (vals: seq<seq<u8>>, end: u64)
    requires ptr % 4 == 0 && ptr + Offset(args, |args|) < TWO64 && size <= 8
    requires forall i :: 0 <= i < |args| ==> ValidFlat(args[i], size)
    ensures |vals| == |args| && end == ptr + Offset(args, |args|)
    ensures forall i :: 0 <= i < |args| ==>
              if args[i].kind.Pointer? then ZeroPadded(args[i].bytes, vals[i]) else vals[i] == args[i].bytes
  {
    var mem' := Push(mem, ptr, args, |args|);
    FlatRoundTrip(mem, ptr, size, args);
    NarrowFits(mem', ptr, size, Kinds(args));
    var list := new List(mem', ptr, size);
    var ok, overran;
    ghost var at;
    vals, ok, overran, at := list.Extract(Kinds(args));
    end := list.ptr;
  }

  /** `NewStdVaList` refuses a null pointer and a zero size. */
  method NewStdVaList(mem: Memory, ptr: u64, size: nat) returns (l: List?)
    ensures l == null <==> ptr == 0 || size == 0
    ensures l != null ==> fresh(l) && l.mem == mem && l.ptr == ptr && l.size == size
  {
    if ptr == 0 || size == 0 {
      return null;
    }
    l := new List(mem, ptr, size);
  }
}
