/** Fixed-width integers of the emulated machine and of the host language. */
module Machine {

  const TWO31: int := 0x8000_0000
  const TWO32: int := 0x1_0000_0000
  const TWO63: int := 0x8000_0000_0000_0000
  const TWO64: int := 0x1_0000_0000_0000_0000

  type u8 = x: int | 0 <= x < 256
  type u32 = x: int | 0 <= x < 0x1_0000_0000
  type u64 = x: int | 0 <= x < 0x1_0000_0000_0000_0000
  type i32 = x: int | -0x8000_0000 <= x < 0x8000_0000
  type i64 = x: int | -0x8000_0000_0000_0000 <= x < 0x8000_0000_0000_0000

  /** Truncation to an unsigned 32-bit value. */
  function ToU32(x: int): u32 { x % TWO32 }

  /** Truncation to a signed 32-bit value. */
  function ToI32(x: int): i32 {
    var m := x % TWO32;
    if m < TWO31 then m else m - TWO32
  }

  /** Truncation to an unsigned 64-bit value. */
  function ToU64(x: int): u64 { x % TWO64 }

  /** Truncating an operand first does not change a truncated sum. */
  lemma ToU64Add(a: int, b: int)
    ensures ToU64(ToU64(a) + b) == ToU64(a + b)
  {
  }

  /** Less than a full turn around the address space never ends where it began. */
  lemma ToU64Moves(a: u64, x: int)
    requires 0 < x < TWO64
    ensures ToU64(a + x) != a
  {
  }

  /** Going on and back again. */
  lemma ToU64Back(a: u64, x: int)
    ensures ToU64(ToU64(a + x) + ToU64(0 - x)) == a
  {
    ToU64Add(a + x, ToU64(0 - x));
    ToU64Add(0 - x, a + x);
  }

  /** Two addresses less than a full turn apart are different. */
  lemma ToU64Apart(a: int, x: int)
    requires 0 <= x < TWO64
    ensures ToU64(a + x) == ToU64(a) <==> x == 0
  {
    ToU64Add(a, x);
    if x > 0 {
      ToU64Moves(ToU64(a), x);
    }
  }

  /** Rounding an address up by less than 16 keeps it only if there was nothing to round, and never ends just below it. */
  lemma ToU64Round(a: u64, r: int)
    requires a <= r < a + 16
    ensures ToU64(r) == a <==> r == a
    ensures ToU64(r) >= a || ToU64(r) + 64 < a
  {
    if r >= TWO64 {
      assert ToU64(r) == r - TWO64;
    }
  }

  /** Truncation to a signed 64-bit value. */
  function ToI64(x: int): i64 {
    var m := x % TWO64;
    if m < TWO63 then m else m - TWO64
  }

  /** Truncation keeps the low bits, so a value that fits stays as it is. */
  lemma Truncates(x: int)
    ensures ToU32(x) % TWO32 == x % TWO32 && ToI32(x) % TWO32 == x % TWO32
    ensures ToU64(x) % TWO64 == x % TWO64 && ToI64(x) % TWO64 == x % TWO64
    ensures -TWO63 <= x < TWO63 ==> ToI64(x) == x
  {
  }

  /** Rounds up to the least multiple of 8 that is not below `x`. */
  function Align8(x: int): (r: int)
    ensures x <= r < x + 8 && r % 8 == 0
  {
    x + 7 - (x + 7) % 8
  }

  /** An item of at most 8 bytes takes up exactly one aligned 8-byte slot. */
  lemma OneSlot(x: int, n: int)
    requires x % 8 == 0 && 1 <= n <= 8
    ensures Align8(x + n) == x + 8
  {
  }

  /** The next slot is aligned, also when the address wraps around. */
  lemma NextSlotAligned(x: u64)
    requires x % 8 == 0
    ensures ToU64(x + 8) % 8 == 0
  {
    if x + 8 >= TWO64 {
      assert ToU64(x + 8) == 0;
    }
  }

  /** Taking one of the slots that are left before an offset of 0. */
  lemma SlotsLeft(offs: int, size: int)
    requires size == 8 || size == 16
    requires offs < 0 && offs % size == 0
    ensures offs + size <= 0 && (offs + size) % size == 0
    ensures (0 - offs) / size > 0 && (0 - (offs + size)) / size == (0 - offs) / size - 1
  {
  }

  /** The same for an address that may wrap around. */
  lemma OneSlotU64(x: u64, n: int)
    requires x % 8 == 0 && 1 <= n <= 8
    ensures ToU64(Align8(ToU64(x + n))) == ToU64(x + 8)
  {
    OneSlot(x, n);
    if x + n >= TWO64 {
      assert x == TWO64 - 8 && n == 8;
    }
  }

  /** Rounds up to the least multiple of 16 that is not below `x`. */
  function Align16(x: int): (r: int)
    ensures x <= r < x + 16 && r % 16 == 0
  {
    x + 15 - (x + 15) % 16
  }

  /** Rounds up to the least multiple of 4 that is not below `x`. */
  function Align4(x: int): (r: int)
    ensures x <= r < x + 4 && r % 4 == 0
  {
    x + 3 - (x + 3) % 4
  }

  /** Padding after an aligned start is padding of the item itself. */
  lemma Align4Shift(a: int, n: int)
    requires a % 4 == 0
    ensures Align4(a + n) == a + Align4(n)
  {
  }

  // Bits

  function Pow2(k: nat): (p: nat)
    ensures p > 0
  {
    if k == 0 then 1 else 2 * Pow2(k - 1)
  }

  /** `m >> k` */
  function Shr(m: nat, k: nat): nat { if k == 0 then m else Shr(m / 2, k - 1) }

  /** Shifting right by `k` is dividing by the `k`-th power of two. */
  lemma {:induction false} ShrDivides(m: nat, k: nat) returns (rest: nat)
    ensures m == Shr(m, k) * Pow2(k) + rest && rest < Pow2(k)
  {
    if k == 0 {
      rest := 0;
    } else {
      var r := ShrDivides(m / 2, k - 1);
      rest := 2 * r + m % 2;
      TwiceTimes(Shr(m, k), Pow2(k - 1));
    }
  }

  lemma TwiceTimes(x: nat, p: nat)
    ensures 2 * (x * p) == x * (2 * p)
  {
  }

  lemma Shr14(m: nat)
    ensures Shr(m, 14) == m / 0x4000
  {
    var rest := ShrDivides(m, 14);
    assert Pow2(7) == 0x80 && Pow2(14) == 0x4000;
  }

  lemma Shr19(m: nat)
    ensures Shr(m, 19) == m / 0x80000
  {
    var rest := ShrDivides(m, 19);
    assert Pow2(10) == 0x400 && Pow2(19) == 0x80000;
  }

  /** Bit `k` of a value, counted from the lowest one. */
  predicate Bit(m: nat, k: nat) { Shr(m, k) % 2 == 1 }

  function Min(a: int, b: int): int { if a <= b then a else b }

  function Max(a: int, b: int): int { if a <= b then b else a }
}
