/** The vectored write of `kernel/fcntl.go`. */
module Writev {
  import opened Machine

  datatype Errno = EBADF | EINTR | EIO

  datatype Result = Ret(n: i64) | Err(errno: Errno) | Panic

  /** How one copy into the file ends: everything written, or an error after `m` bytes. */
  datatype Copied = Whole | Broken(m: nat)

  function Concat(segs: seq<seq<u8>>): seq<u8> {
    if segs == [] then [] else segs[0] + Concat(segs[1..])
  }

  /** The index of the first copy that breaks, from `k` on. */
  function FirstBroken(copies: seq<Copied>, k: nat): (i: nat)
    requires k <= |copies|
    ensures k <= i <= |copies| && (i < |copies| ==> copies[i].Broken?)
    ensures forall j :: k <= j < i ==> copies[j].Whole?
    decreases |copies| - k
  {
    if k == |copies| || copies[k].Broken? then k else FirstBroken(copies, k + 1)
  }

  lemma {:induction false} ConcatSnoc(segs: seq<seq<u8>>, s: seq<u8>)
    ensures Concat(segs + [s]) == Concat(segs) + s
  {
    if segs == [] {
      assert [s][1..] == [];
      assert [] + [s] == [s];
    } else {
      ConcatSnoc(segs[1..], s);
      assert (segs + [s])[1..] == segs[1..] + [s];
      assert segs[0] + (Concat(segs[1..]) + s) == segs[0] + Concat(segs[1..]) + s;
    }
  }

  lemma {:induction false} ConcatSplit(segs: seq<seq<u8>>, k: nat)
    requires k <= |segs|
    ensures Concat(segs) == Concat(segs[..k]) + Concat(segs[k..])
  {
    if k == 0 {
      assert segs[..0] == [] && segs[0..] == segs;
    } else {
      ConcatSplit(segs[1..], k - 1);
      assert segs[..k][1..] == segs[1..][..k - 1] && segs[k..] == segs[1..][k - 1..];
      assert segs[0] + (Concat(segs[..k][1..]) + Concat(segs[k..])) == segs[0] + Concat(segs[..k][1..]) + Concat(segs[k..]);
    }
  }

  /** What the file has gained when the copies end as they do. */
  function Gained(segs: seq<seq<u8>>, copies: seq<Copied>): seq<u8>
    requires |copies| == |segs|
  {
    var k := FirstBroken(copies, 0);
    Concat(segs[..k]) + (if k == |segs| then [] else segs[k][..Min(copies[k].m, |segs[k]|)])
  }

  /** A vectored write never does anything that one write of the joined segments could not do. */
  lemma GainedIsPrefix(segs: seq<seq<u8>>, copies: seq<Copied>)
    requires |copies| == |segs|
    ensures Gained(segs, copies) <= Concat(segs)
    ensures FirstBroken(copies, 0) == |segs| ==> Gained(segs, copies) == Concat(segs)
    ensures |Concat(segs[..FirstBroken(copies, 0)])| <= |Gained(segs, copies)|
  {
    var k := FirstBroken(copies, 0);
    ConcatSplit(segs, k);
    if k == |segs| {
      assert segs[..k] == segs && segs[k..] == [];
    } else {
      var p := segs[k][..Min(copies[k].m, |segs[k]|)];
      assert Concat(segs[k..]) == segs[k] + Concat(segs[k..][1..]);
      assert p <= Concat(segs[k..]);
    }
  }

  class Sink {
    var data: seq<u8>

    /** `io.Copy` of one segment into the file. */
    method Copy(seg: seq<u8>, ends: Copied) returns (m: nat, ok: bool)
      modifies this
      ensures ok <==> ends.Whole?
      ensures ok ==> m == |seg| && data == old(data) + seg
      ensures !ok ==> data == old(data) + seg[..Min(ends.m, |seg|)]
    {
      ok := ends.Whole?;
      m := if ok then |seg| else Min(ends.m, |seg|);
      data := data + seg[..m];
      assert seg[..|seg|] == seg;
    }
  }

  lemma ToI64Add(a: int, b: int)
    ensures ToI64(ToI64(a) + b) == ToI64(a + b)
  {
  }

  /**
   `writev`: on success the file gains all segments in order and the result is their total length;
   if a copy breaks, it has gained the earlier segments whole and a prefix of that one. A negative
   count cannot be allocated and panics.
   */
  method WriteVector(isOpen: bool, isWriter: bool, sink: Sink, count: i32, segs: seq<seq<u8>>, copies: seq<Copied>)
    returns (r: Result)
    requires |copies| == |segs| && (count >= 0 ==> |segs| == count)
    modifies sink
    ensures !isOpen ==> r == Err(EBADF) && sink.data == old(sink.data)
    ensures isOpen && !isWriter ==> r == Err(EINTR) && sink.data == old(sink.data)
    ensures isOpen && isWriter && count < 0 ==> r == Panic && sink.data == old(sink.data)
    ensures isOpen && isWriter && count >= 0 ==>
              && sink.data == old(sink.data) + Gained(segs, copies)
              && r == (if FirstBroken(copies, 0) < |segs| then Err(EIO) else Ret(ToI64(|Concat(segs)|)))
              && (r.Ret? && |Concat(segs)| < TWO63 ==> r.n == |Concat(segs)|)
  {
    if !isOpen {
      return Err(EBADF);
    }
    if !isWriter {
      return Err(EINTR);
    }
    if count < 0 {
      return Panic;
    }
    var n := 0;
    assert segs[..0] == [];
    for i := 0 to |segs|
      invariant FirstBroken(copies, 0) == FirstBroken(copies, i)
      invariant sink.data == old(sink.data) + Concat(segs[..i])
      invariant n == ToI64(|Concat(segs[..i])|)
    {
      var m, ok := sink.Copy(segs[i], copies[i]);
      if !ok {
        assert FirstBroken(copies, 0) == i;
        return Err(EIO);
      }
      ConcatSnoc(segs[..i], segs[i]);
      assert segs[..i + 1] == segs[..i] + [segs[i]];
      ToI64Add(|Concat(segs[..i])|, m);
      n := ToI64(n + m);
    }
    assert segs[..|segs|] == segs;
    Truncates(|Concat(segs)|);
    r := Ret(n);
  }
}
