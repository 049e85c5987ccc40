/** CRC-16/ARC: polynomial 0x8005 reflected to 0xA001, zero start, no final inversion. */
module Crc {
  import opened Octets

  lemma Increment(b: bv8)
    requires b != 255
    ensures (b + 1) as int == (b as int) + 1
  {
  }

  /** The same byte as eight bits. */
  function Bits(n: byte): (b: bv8)
    ensures b as int == n
  {
    if n == 0 then 0 else
      Increment(Bits(n - 1));
      Bits(n - 1) + 1
  }

  function Number(b: bv8): byte {
    b as int
  }

  lemma SameNumberSameBits(a: bv8, b: bv8)
    requires a as int == b as int
    ensures a == b
  {
  }

  lemma BitsOfNumber(b: bv8)
    ensures Bits(Number(b)) == b
  {
    SameNumberSameBits(b, Bits(Number(b)));
  }

  function AllBits(data: Bytes): (bits: seq<bv8>)
    ensures |bits| == |data|
  {
    seq(|data|, i requires 0 <= i < |data| => Bits(data[i]))
  }

  /** One bit through the register. */
  function Shift(c: bv16): bv16 {
    if c & 1 != 0 then (c >> 1) ^ 0xA001 else c >> 1
  }

  function Shifts(n: nat, c: bv16): bv16 {
    if n == 0 then c else Shift(Shifts(n - 1, c))
  }

  /** One byte through the register. */
  function ByteStep(c: bv16, b: bv8): bv16 {
    Shifts(8, c ^ (b as bv16))
  }

  /** A run of bytes through the register, starting from `c`. */
  function Checksum(c: bv16, data: seq<bv8>): bv16
    decreases |data|
  {
    if data == [] then c else Checksum(ByteStep(c, data[0]), data[1..])
  }

  function Flatten(parts: seq<Bytes>): Bytes {
    if parts == [] then [] else Flatten(parts[..|parts| - 1]) + parts[|parts| - 1]
  }

  lemma {:induction false} CrcConcat(c: bv16, a: seq<bv8>, b: seq<bv8>)
    ensures Checksum(c, a + b) == Checksum(Checksum(c, a), b)
    decreases |a|
  {
    if a == [] {
      assert a + b == b;
    } else {
      assert (a + b)[1..] == a[1..] + b;
      CrcConcat(ByteStep(c, a[0]), a[1..], b);
    }
  }

  lemma {:induction false} CrcOne(c: bv16, b: bv8)
    ensures Checksum(c, [b]) == ByteStep(c, b)
  {
    assert [b][1..] == [];
  }

  /** Eight rounds of the bit loop. */
  method FeedByte(crc0: bv16, b: byte) returns (crc: bv16)
    ensures crc == ByteStep(crc0, Bits(b))
  {
    crc := crc0 ^ (Bits(b) as bv16);
    ghost var mixed := crc;
    for k := 0 to 8
      invariant crc == Shifts(k, mixed)
    {
      crc := if crc & 1 != 0 then (crc >> 1) ^ 0xA001 else crc >> 1;
    }
  }

  /** The bit-by-bit computation over several parts is the CRC of their concatenation. */
  method Crc16Arc(parts: seq<Bytes>) returns (crc: bv16)
    ensures crc == Checksum(0, AllBits(Flatten(parts)))
  {
    crc := 0;
    for i := 0 to |parts|
      invariant crc == Checksum(0, AllBits(Flatten(parts[..i])))
    {
      assert parts[..i + 1][..i] == parts[..i];
      var p := parts[i];
      ghost var before := Flatten(parts[..i]);
      assert before + p[..0] == before;
      for j := 0 to |p|
        invariant crc == Checksum(0, AllBits(before + p[..j]))
      {
        AppendByte(before, p, j);
        crc := FeedByte(crc, p[j]);
      }
      assert p[..|p|] == p;
    }
    assert parts[..|parts|] == parts;
  }

  lemma AppendByte(before: Bytes, p: Bytes, j: nat)
    requires j < |p|
    ensures Checksum(0, AllBits(before + p[..j + 1])) == ByteStep(Checksum(0, AllBits(before + p[..j])), Bits(p[j]))
  {
    var done := AllBits(before + p[..j]);
    assert AllBits(before + p[..j + 1]) == done + [Bits(p[j])];
    CrcConcat(0, done, [Bits(p[j])]);
    CrcOne(Checksum(0, done), Bits(p[j]));
  }

  // ---- one byte is a bijection of the register ----

  /** Undoes one bit. */
  function Unshift(c: bv16): bv16 {
    if c & 0x8000 != 0 then ((c ^ 0xA001) << 1) | 1 else c << 1
  }

  function Unshifts(n: nat, c: bv16): bv16 {
    if n == 0 then c else Unshifts(n - 1, Unshift(c))
  }

  lemma OddBit(c: bv16)
    requires c & 1 != 0
    ensures ((c >> 1) ^ 0xA001) & 0x8000 != 0
    ensures ((((c >> 1) ^ 0xA001) ^ 0xA001) << 1) | 1 == c
  {
  }

  lemma EvenBit(c: bv16)
    requires c & 1 == 0
    ensures (c >> 1) & 0x8000 == 0 && (c >> 1) << 1 == c
  {
  }

  lemma HighBit(c: bv16)
    requires c & 0x8000 != 0
    ensures (((c ^ 0xA001) << 1) | 1) & 1 != 0
    ensures ((((c ^ 0xA001) << 1) | 1) >> 1) ^ 0xA001 == c
  {
  }

  lemma NoHighBit(c: bv16)
    requires c & 0x8000 == 0
    ensures (c << 1) & 1 == 0 && (c << 1) >> 1 == c
  {
  }

  lemma UnshiftOfShift(c: bv16)
    ensures Unshift(Shift(c)) == c
  {
    var h := c >> 1;
    if c & 1 != 0 { OddBit(c); } else { EvenBit(c); }
  }

  lemma ShiftOfUnshift(c: bv16)
    ensures Shift(Unshift(c)) == c
  {
    if c & 0x8000 != 0 {
      HighBit(c);
      ShiftOdd(((c ^ 0xA001) << 1) | 1);
    } else {
      NoHighBit(c);
      ShiftEven(c << 1);
    }
  }

  lemma ShiftOdd(u: bv16)
    requires u & 1 != 0
    ensures Shift(u) == (u >> 1) ^ 0xA001
  {
  }

  lemma ShiftEven(u: bv16)
    requires u & 1 == 0
    ensures Shift(u) == u >> 1
  {
  }

  lemma {:induction false} UnshiftsInvert(n: nat, c: bv16)
    ensures Unshifts(n, Shifts(n, c)) == c && Shifts(n, Unshifts(n, c)) == c
  {
    if n > 0 {
      UnshiftOfShift(Shifts(n - 1, c));
      ShiftOfUnshift(c);
      UnshiftsInvert(n - 1, c);
      UnshiftsInvert(n - 1, Unshift(c));
    }
  }

  /** The inverse of one byte step, for a known byte. */
  function ByteUnstep(c: bv16, b: bv8): bv16 {
    Unshifts(8, c) ^ (b as bv16)
  }

  lemma XorTwice(a: bv16, b: bv16)
    ensures (a ^ b) ^ b == a
  {
  }

  lemma StepThenUnstep(c: bv16, b: bv8)
    ensures ByteUnstep(ByteStep(c, b), b) == c
  {
    UnshiftsInvert(8, c ^ (b as bv16));
    XorTwice(c, b as bv16);
  }

  lemma UnstepThenStep(c: bv16, b: bv8)
    ensures ByteStep(ByteUnstep(c, b), b) == c
  {
    UnshiftsInvert(8, c);
    XorTwice(Unshifts(8, c), b as bv16);
  }

  /** For every byte, the byte step is a bijection of the register: it has a two-sided inverse. */
  lemma ByteStepIsBijective(c: bv16, b: bv8)
    ensures ByteUnstep(ByteStep(c, b), b) == c
    ensures ByteStep(ByteUnstep(c, b), b) == c
  {
    StepThenUnstep(c, b);
    UnstepThenStep(c, b);
  }

  // ---- linearity ----

  lemma XorMoves(a: bv16, b: bv16)
    ensures (a ^ 0xA001) ^ b == (a ^ b) ^ 0xA001
    ensures a ^ (b ^ 0xA001) == (a ^ b) ^ 0xA001
  {
  }

  lemma XorCancels(a: bv16, b: bv16)
    ensures (a ^ 0xA001) ^ (b ^ 0xA001) == a ^ b
  {
    XorMoves(a, b ^ 0xA001);
    XorMoves(a, b);
    XorTwice(a ^ b, 0xA001);
  }

  lemma LowBit(a: bv16)
    ensures a & 1 == 0 || a & 1 == 1
  {
  }

  lemma ParityIsLinear(a: bv16, b: bv16)
    ensures ((a ^ b) & 1) == (a & 1) ^ (b & 1) && (a ^ b) >> 1 == (a >> 1) ^ (b >> 1)
  {
  }

  lemma ShiftIsLinear(a: bv16, b: bv16)
    ensures Shift(a ^ b) == Shift(a) ^ Shift(b)
  {
    ParityIsLinear(a, b);
    LowBit(a);
    LowBit(b);
    XorMoves(a >> 1, b >> 1);
    XorCancels(a >> 1, b >> 1);
  }

  /** `c` is the difference of `a` and `b`. */
  predicate IsXor(a: bv16, b: bv16, c: bv16) {
    c == a ^ b
  }

  predicate IsXorOfBytes(a: seq<bv8>, b: seq<bv8>, c: seq<bv8>) {
    |a| == |b| == |c| && forall i :: 0 <= i < |c| ==> c[i] == a[i] ^ b[i]
  }

  lemma ShiftKeepsXor(a: bv16, b: bv16, c: bv16)
    requires IsXor(a, b, c)
    ensures IsXor(Shift(a), Shift(b), Shift(c))
  {
    ShiftIsLinear(a, b);
  }

  lemma {:induction false} ShiftsKeepXor(n: nat, a: bv16, b: bv16, c: bv16)
    requires IsXor(a, b, c)
    ensures IsXor(Shifts(n, a), Shifts(n, b), Shifts(n, c))
  {
    if n > 0 {
      ShiftsKeepXor(n - 1, a, b, c);
      ShiftKeepsXor(Shifts(n - 1, a), Shifts(n - 1, b), Shifts(n - 1, c));
    }
  }

  lemma MixKeepsXor(a: bv16, b: bv16, c: bv16, p: bv8, q: bv8, r: bv8)
    requires IsXor(a, b, c) && r == p ^ q
    ensures IsXor(a ^ (p as bv16), b ^ (q as bv16), c ^ (r as bv16))
  {
  }

  lemma ByteStepKeepsXor(a: bv16, b: bv16, c: bv16, p: bv8, q: bv8, r: bv8)
    requires IsXor(a, b, c) && r == p ^ q
    ensures IsXor(ByteStep(a, p), ByteStep(b, q), ByteStep(c, r))
  {
    MixKeepsXor(a, b, c, p, q, r);
    ShiftsKeepXor(8, a ^ (p as bv16), b ^ (q as bv16), c ^ (r as bv16));
  }

  /** The CRC is linear over exclusive or: the CRC of a difference is the difference of the CRCs. */
  lemma {:induction false} CrcIsLinear(a: bv16, b: bv16, c: bv16, x: seq<bv8>, y: seq<bv8>, z: seq<bv8>)
    requires IsXor(a, b, c) && IsXorOfBytes(x, y, z)
    ensures IsXor(Checksum(a, x), Checksum(b, y), Checksum(c, z))
    decreases |x|
  {
    if x != [] {
      ByteStepKeepsXor(a, b, c, x[0], y[0], z[0]);
      CrcIsLinear(ByteStep(a, x[0]), ByteStep(b, y[0]), ByteStep(c, z[0]), x[1..], y[1..], z[1..]);
    }
  }

  // ---- what the CRC detects ----

  /** Different registers stay different under the same bytes. */
  lemma {:induction false} CrcKeepsApart(c: bv16, d: bv16, data: seq<bv8>)
    requires c != d
    ensures Checksum(c, data) != Checksum(d, data)
    decreases |data|
  {
    if data != [] {
      ByteStepIsBijective(c, data[0]);
      ByteStepIsBijective(d, data[0]);
      CrcKeepsApart(ByteStep(c, data[0]), ByteStep(d, data[0]), data[1..]);
    }
  }

  function EightShifts(c: bv16): bv16 {
    Shift(Shift(Shift(Shift(Shift(Shift(Shift(Shift(c))))))))
  }

  lemma {:induction false} ShiftsEight(c: bv16)
    ensures Shifts(8, c) == EightShifts(c)
  {
    var c1 := Shift(c); var c2 := Shift(c1); var c3 := Shift(c2); var c4 := Shift(c3);
    assert Shifts(0, c) == c;
    assert Shifts(1, c) == c1;
    assert Shifts(2, c) == c2;
    assert Shifts(3, c) == c3;
    assert Shifts(4, c) == c4;
    assert Shifts(5, c) == Shift(c4);
    assert Shifts(6, c) == Shift(Shift(c4));
    assert Shifts(7, c) == Shift(Shift(Shift(c4)));
  }

  /** Only the low byte may be set. */
  predicate Small(d: bv16) {
    d & 0xFF00 == 0
  }

  lemma SmallDifference(d: bv16)
    requires Small(d) && Small(EightShifts(d))
    ensures d == 0
  {
  }

  lemma BytesDifferSmall(a: bv8, b: bv8, d: bv16)
    requires IsXor(a as bv16, b as bv16, d)
    ensures Small(d) && (d == 0 <==> a == b)
  {
  }

  lemma Differ(a: bv16, b: bv16) returns (d: bv16)
    ensures IsXor(a, b, d)
  {
    d := a ^ b;
  }

  lemma XorShared(c: bv16, a: bv16, b: bv16, d: bv16)
    requires IsXor(a, b, d)
    ensures IsXor(c ^ a, c ^ b, d)
  {
  }

  lemma XorAcross(a: bv16, b: bv16, p: bv16, q: bv16, u: bv16, d: bv16)
    requires IsXor(a, p, u) && IsXor(b, q, u) && IsXor(a, b, d)
    ensures IsXor(p, q, d)
  {
  }

  /** A register and a byte that lead to `t` are tied to each other by `t` alone. */
  lemma {:induction false} Unfeed(s: bv16, b: bv8, t: bv16)
    requires ByteStep(s, b) == t
    ensures IsXor(s, b as bv16, Unshifts(8, t))
  {
    UnshiftsInvert(8, s ^ (b as bv16));
  }

  /** The registers before two last bytes that end alike differ in the low byte only. */
  lemma SecondBytes(sa: bv16, sb: bv16, a2: bv8, b2: bv8, d: bv16)
    requires ByteStep(sa, a2) == ByteStep(sb, b2) && IsXor(sa, sb, d)
    ensures IsXor(a2 as bv16, b2 as bv16, d)
  {
    Unfeed(sa, a2, ByteStep(sa, a2));
    Unfeed(sb, b2, ByteStep(sa, a2));
    XorAcross(sa, sb, a2 as bv16, b2 as bv16, Unshifts(8, ByteStep(sa, a2)), d);
  }

  lemma MixShared(c: bv16, a: bv8, b: bv8, d: bv16)
    requires IsXor(a as bv16, b as bv16, d)
    ensures IsXor(c ^ (a as bv16), c ^ (b as bv16), d)
  {
    XorShared(c, a as bv16, b as bv16, d);
  }

  /** What one differing byte does to the register does not depend on the register. */
  lemma FirstBytes(c: bv16, a1: bv8, b1: bv8, d: bv16)
    requires IsXor(a1 as bv16, b1 as bv16, d)
    ensures IsXor(ByteStep(c, a1), ByteStep(c, b1), EightShifts(d))
  {
    MixShared(c, a1, b1, d);
    ShiftsKeepXor(8, c ^ (a1 as bv16), c ^ (b1 as bv16), d);
    ShiftsEight(d);
  }

  /** Two bytes leave the same register only if they are the same two bytes. */
  lemma TwoBytesAreInjective(c: bv16, a1: bv8, a2: bv8, b1: bv8, b2: bv8)
    requires ByteStep(ByteStep(c, a1), a2) == ByteStep(ByteStep(c, b1), b2)
    ensures a1 == b1 && a2 == b2
  {
    var d := Differ(a1 as bv16, b1 as bv16);
    FirstBytes(c, a1, b1, d);
    BytesDifferSmall(a1, b1, d);
    SecondBytes(ByteStep(c, a1), ByteStep(c, b1), a2, b2, EightShifts(d));
    BytesDifferSmall(a2, b2, EightShifts(d));
    SmallDifference(d);
    ZeroStays();
  }

  lemma ZeroStays()
    ensures EightShifts(0) == 0
  {
  }

  /** A change confined to two adjacent bytes always changes the CRC, whatever surrounds them. */
  lemma {:induction false} BurstChangesCrc(c: bv16, before: seq<bv8>, a: seq<bv8>, b: seq<bv8>, after: seq<bv8>)
    requires |a| == |b| == 2 && a != b
    ensures Checksum(c, before + a + after) != Checksum(c, before + b + after)
  {
    CrcConcat(c, before + a, after);
    CrcConcat(c, before + b, after);
    CrcConcat(c, before, a);
    CrcConcat(c, before, b);
    var s := Checksum(c, before);
    TwoBytes(s, a);
    TwoBytes(s, b);
    if Checksum(s, a) == Checksum(s, b) { TwoBytesAreInjective(s, a[0], a[1], b[0], b[1]); }
    CrcKeepsApart(Checksum(s, a), Checksum(s, b), after);
  }

  lemma {:induction false} TwoBytes(c: bv16, a: seq<bv8>)
    requires |a| == 2
    ensures Checksum(c, a) == ByteStep(ByteStep(c, a[0]), a[1])
  {
    assert a[1..] == [a[1]];
    CrcOne(ByteStep(c, a[0]), a[1]);
  }

  /** The stored form of a CRC, low byte first. */
  function Join(lo: bv8, hi: bv8): bv16 {
    (lo as bv16) | ((hi as bv16) << 8)
  }

  lemma JoinBytes(c: bv16)
    ensures Join((c & 0xFF) as bv8, (c >> 8) as bv8) == c
  {
  }

  /** A message followed by its own stored CRC, and by no other two bytes, leaves the register at zero. */
  lemma {:induction false} ResidueIsZero(c: bv16, data: seq<bv8>, lo: bv8, hi: bv8)
    ensures Checksum(c, data + [lo, hi]) == 0 <==> Checksum(c, data) == Join(lo, hi)
  {
    CrcConcat(c, data, [lo, hi]);
    TwoBytes(Checksum(c, data), [lo, hi]);
    ResidueOfTwo(Checksum(c, data), lo, hi);
  }

  lemma ResidueOfTwo(c: bv16, lo: bv8, hi: bv8)
    ensures ByteStep(ByteStep(c, lo), hi) == 0 <==> c == Join(lo, hi)
  {
    EightSteps(c, lo);
    EightSteps(ByteStep(c, lo), hi);
    ResidueOfSteps(c, lo, hi, ByteStep(c, lo), ByteStep(ByteStep(c, lo), hi));
  }

  /** `d` is `c` after the byte `b`. */
  predicate Steps(c: bv16, b: bv8, d: bv16) {
    d == EightShifts(c ^ (b as bv16))
  }

  lemma EightSteps(c: bv16, b: bv8)
    ensures Steps(c, b, ByteStep(c, b))
  {
    ShiftsEight(c ^ (b as bv16));
  }

  lemma ResidueOfSteps(c: bv16, lo: bv8, hi: bv8, d: bv16, e: bv16)
    requires Steps(c, lo, d) && Steps(d, hi, e)
    ensures e == 0 <==> c == Join(lo, hi)
  {
    ResidueBits(c, lo, hi);
  }

  lemma ResidueBits(c: bv16, lo: bv8, hi: bv8)
    ensures EightShifts(EightShifts(c ^ (lo as bv16)) ^ (hi as bv16)) == 0 <==> c == Join(lo, hi)
  {
  }

  // ---- stored checksums ----

  /** `lo`, `hi` is the stored form of the CRC of `covered`. */
  predicate Matches(covered: Bytes, lo: byte, hi: byte) {
    Checksum(0, AllBits(covered)) == Join(Bits(lo), Bits(hi))
  }

  /** The two bytes to store behind `covered`. */
  function Seal(covered: Bytes): (s: (byte, byte))
    ensures Matches(covered, s.0, s.1)
  {
    var c := Checksum(0, AllBits(covered));
    var lo, hi := (c & 0xFF) as bv8, (c >> 8) as bv8;
    JoinBytes(c);
    BitsOfNumber(lo);
    BitsOfNumber(hi);
    (Number(lo), Number(hi))
  }

  /** The last two bytes are the CRC of the ones before them. */
  predicate Sealed(data: Bytes)
    requires |data| >= 2
  {
    Matches(data[..|data| - 2], data[|data| - 2], data[|data| - 1])
  }

  /** Data is sealed exactly when the CRC over all of it, stored CRC included, is zero. */
  lemma SealedIsResidue(data: Bytes)
    requires |data| >= 2
    ensures Sealed(data) <==> Checksum(0, AllBits(data)) == 0
  {
    var n := |data| - 2;
    assert AllBits(data) == AllBits(data[..n]) + [Bits(data[n]), Bits(data[n + 1])];
    ResidueIsZero(0, AllBits(data[..n]), Bits(data[n]), Bits(data[n + 1]));
  }

  /** `x` and `y` differ, and only within two adjacent bytes at `k`. */
  predicate Burst(x: Bytes, y: Bytes, k: nat) {
    && |x| == |y| && k + 2 <= |x| && x[k..k + 2] != y[k..k + 2]
    && x[..k] == y[..k] && x[k + 2..] == y[k + 2..]
  }

  lemma BitsApart(a: Bytes, b: Bytes)
    requires |a| == |b| == 2 && a != b
    ensures AllBits(a) != AllBits(b)
  {
    assert AllBits(a)[0] as int == a[0] && AllBits(a)[1] as int == a[1];
    assert AllBits(b)[0] as int == b[0] && AllBits(b)[1] as int == b[1];
  }

  lemma BitsAround(x: Bytes, k: nat)
    requires k + 2 <= |x|
    ensures AllBits(x) == AllBits(x[..k]) + AllBits(x[k..k + 2]) + AllBits(x[k + 2..])
  {
  }

  /** A change of one or two adjacent bytes, stored CRC included, always breaks the seal. */
  lemma BurstUnseals(x: Bytes, y: Bytes, k: nat)
    requires Burst(x, y, k) && Sealed(x)
    ensures !Sealed(y)
  {
    SealedIsResidue(x);
    SealedIsResidue(y);
    BitsAround(x, k);
    BitsAround(y, k);
    BitsApart(x[k..k + 2], y[k..k + 2]);
    BurstChangesCrc(0, AllBits(x[..k]), AllBits(x[k..k + 2]), AllBits(y[k..k + 2]), AllBits(x[k + 2..]));
  }

  // ---- the standard check ----

  lemma {:induction false} ByteOf(n: byte, b: bv8)
    requires b as int == n
    ensures Bits(n) == b
  {
    SameNumberSameBits(Bits(n), b);
  }

  lemma FirstDigits()
    ensures ByteStep(0x0, 0x31) == 0xd4c1 && ByteStep(0xd4c1, 0x32) == 0x4594 && ByteStep(0x4594, 0x33) == 0xba04
    ensures ByteStep(0xba04, 0x34) == 0x14ba && ByteStep(0x14ba, 0x35) == 0xa455
  {
    ShiftsEight(0x0 ^ (0x31 as bv8 as bv16));
    ShiftsEight(0xd4c1 ^ (0x32 as bv8 as bv16));
    ShiftsEight(0x4594 ^ (0x33 as bv8 as bv16));
    ShiftsEight(0xba04 ^ (0x34 as bv8 as bv16));
    ShiftsEight(0x14ba ^ (0x35 as bv8 as bv16));
  }

  lemma LastDigits()
    ensures ByteStep(0xa455, 0x36) == 0x29e4 && ByteStep(0x29e4, 0x37) == 0x9d68
    ensures ByteStep(0x9d68, 0x38) == 0x3c9d && ByteStep(0x3c9d, 0x39) == 0xbb3d
  {
    ShiftsEight(0xa455 ^ (0x36 as bv8 as bv16));
    ShiftsEight(0x29e4 ^ (0x37 as bv8 as bv16));
    ShiftsEight(0x9d68 ^ (0x38 as bv8 as bv16));
    ShiftsEight(0x3c9d ^ (0x39 as bv8 as bv16));
  }

  lemma {:induction false} OneMoreByte(c: bv16, b: bv8, rest: seq<bv8>)
    ensures Checksum(c, [b] + rest) == Checksum(ByteStep(c, b), rest)
  {
    assert ([b] + rest)[1..] == rest;
  }

  lemma FromSixth()
    ensures Checksum(0xa455, [0x36, 0x37, 0x38, 0x39]) == 0xBB3D
  {
    LastDigits();
    OneMoreByte(0xa455, 0x36, [0x37, 0x38, 0x39]);
    assert [0x36] + [0x37, 0x38, 0x39] == [0x36, 0x37, 0x38, 0x39];
    OneMoreByte(0x29e4, 0x37, [0x38, 0x39]);
    assert [0x37] + [0x38, 0x39] == [0x37, 0x38, 0x39];
    OneMoreByte(0x9d68, 0x38, [0x39]);
    assert [0x38] + [0x39] == [0x38, 0x39];
    OneMoreByte(0x3c9d, 0x39, []);
    assert [0x39] + [] == [0x39];
  }

  lemma FromThird()
    ensures Checksum(0x4594, [0x33, 0x34, 0x35, 0x36, 0x37, 0x38, 0x39]) == 0xBB3D
  {
    FirstDigits();
    FromSixth();
    OneMoreByte(0x4594, 0x33, [0x34, 0x35, 0x36, 0x37, 0x38, 0x39]);
    assert [0x33] + [0x34, 0x35, 0x36, 0x37, 0x38, 0x39] == [0x33, 0x34, 0x35, 0x36, 0x37, 0x38, 0x39];
    OneMoreByte(0xba04, 0x34, [0x35, 0x36, 0x37, 0x38, 0x39]);
    assert [0x34] + [0x35, 0x36, 0x37, 0x38, 0x39] == [0x34, 0x35, 0x36, 0x37, 0x38, 0x39];
    OneMoreByte(0x14ba, 0x35, [0x36, 0x37, 0x38, 0x39]);
    assert [0x35] + [0x36, 0x37, 0x38, 0x39] == [0x35, 0x36, 0x37, 0x38, 0x39];
  }

  /** The check value of CRC-16/ARC: the nine digits "123456789" give 0xBB3D. */
  lemma CheckValue()
    ensures Checksum(0, AllBits([49, 50, 51, 52, 53, 54, 55, 56, 57])) == 0xBB3D
  {
    FirstDigits();
    FromThird();
    OneMoreByte(0x0, 0x31, [0x32, 0x33, 0x34, 0x35, 0x36, 0x37, 0x38, 0x39]);
    assert [0x31] + [0x32, 0x33, 0x34, 0x35, 0x36, 0x37, 0x38, 0x39] == [0x31, 0x32, 0x33, 0x34, 0x35, 0x36, 0x37, 0x38, 0x39];
    OneMoreByte(0xd4c1, 0x32, [0x33, 0x34, 0x35, 0x36, 0x37, 0x38, 0x39]);
    assert [0x32] + [0x33, 0x34, 0x35, 0x36, 0x37, 0x38, 0x39] == [0x32, 0x33, 0x34, 0x35, 0x36, 0x37, 0x38, 0x39];
    DigitBits();
  }

  lemma DigitBits()
    ensures AllBits([49, 50, 51, 52, 53, 54, 55, 56, 57]) == [0x31, 0x32, 0x33, 0x34, 0x35, 0x36, 0x37, 0x38, 0x39]
  {
    ByteOf(49, 0x31);
    ByteOf(50, 0x32);
    ByteOf(51, 0x33);
    ByteOf(52, 0x34);
    ByteOf(53, 0x35);
    ByteOf(54, 0x36);
    ByteOf(55, 0x37);
    ByteOf(56, 0x38);
    ByteOf(57, 0x39);
  }
}
