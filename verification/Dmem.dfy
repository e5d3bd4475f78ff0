/**
 * RSP data memory: 4096 bytes of a big-endian machine stored word-swapped on a little-endian host,
 * so the byte at logical address a lives at a ^ 3. The recompiler emits plain host accesses for
 * aligned addresses and calls byte-by-byte helpers otherwise; both are compared with one reference.
 */
module Dmem {
  import opened Words

  type Byte = x: int | 0 <= x < 256

  type Memory = s: seq<Byte> | |s| == 4096 witness seq(4096, _ => 0)

  datatype Access = AccessByte | AccessByteU | AccessHalf | AccessHalfU | AccessWord

  function Lane3(a: nat): nat { 4 * (a / 4) + (3 - a % 4) }   // a ^ 3
  function Lane2(a: nat): nat { 4 * (a / 4) + (a + 2) % 4 }   // a ^ 2

  /** The logical byte at any address; addresses wrap at 4 KiB. */
  function Get(m: Memory, a: nat): Byte { m[Lane3(a % 4096)] }

  function Put(m: Memory, a: nat, v: Byte): Memory { m[Lane3(a % 4096) := v] }

  function Sign8(v: int): Word
    requires 0 <= v < 256
  {
    if v >= 128 then W - 256 + v else v
  }

  function Sign16(v: int): Word
    requires 0 <= v < 0x1_0000
  {
    if v >= 0x8000 then W - 0x1_0000 + v else v
  }

  /** What a load returns: big-endian bytes from the address upwards. */
  function Fetch(m: Memory, access: Access, a: nat): Word {
    match access
    case AccessByte => Sign8(Get(m, a))
    case AccessByteU => Get(m, a)
    case AccessHalf => Sign16(256 * Get(m, a) + Get(m, a + 1))
    case AccessHalfU => 256 * Get(m, a) + Get(m, a + 1)
    case AccessWord => 0x100_0000 * Get(m, a) + 0x1_0000 * Get(m, a + 1) + 256 * Get(m, a + 2) + Get(m, a + 3)
  }

  function ByteOf(v: Word, lane: nat): Byte
    requires lane < 4
  {
    match lane
    case 0 => v % 256
    case 1 => (v / 256) % 256
    case 2 => (v / 0x1_0000) % 256
    case _ => (v / 0x100_0000) % 256
  }

  /** What a store leaves: the low bytes of v, most significant first, from the address upwards. */
  function Deposit(m: Memory, access: Access, a: nat, v: Word): Memory {
    match access
    case AccessByte | AccessByteU => Put(m, a, ByteOf(v, 0))
    case AccessHalf | AccessHalfU => Put(Put(m, a, ByteOf(v, 1)), a + 1, ByteOf(v, 0))
    case AccessWord =>
      Put(Put(Put(Put(m, a, ByteOf(v, 3)), a + 1, ByteOf(v, 2)), a + 2, ByteOf(v, 1)), a + 3, ByteOf(v, 0))
  }

  // ----- host side -----

  /** The XOR applied to an aligned address before the host access. */
  function Flip(access: Access, a: nat): nat {
    match access
    case AccessByte | AccessByteU => Lane3(a)
    case AccessHalf | AccessHalfU => Lane2(a)
    case AccessWord => a
  }

  /** `endian_flip ^ 3`: the address bits that make an access unaligned, as a modulus. */
  function AlignOf(access: Access): nat {
    match access
    case AccessByte | AccessByteU => 1
    case AccessHalf | AccessHalfU => 2
    case AccessWord => 4
  }

  predicate Aligned(access: Access, a: nat) { a % AlignOf(access) == 0 }

  function Pair(lo: int, hi: int): int { lo + 256 * hi }

  /** A little-endian host load of the access's width at byte offset p. */
  function HostLoad(m: Memory, access: Access, p: nat): Host {
    if !Aligned(access, p) || p >= 4096 then ZERO
    else match access
      case AccessByte => SignExt(Sign8(m[p]))
      case AccessByteU => ZeroExt(m[p])
      case AccessHalf => SignExt(Sign16(Pair(m[p], m[p + 1])))
      case AccessHalfU => ZeroExt(Pair(m[p], m[p + 1]))
      case AccessWord => SignExt(Pair(m[p], m[p + 1]) + 0x1_0000 * Pair(m[p + 2], m[p + 3]))
  }

  function HostStore(m: Memory, access: Access, p: nat, v: Word): Memory {
    if !Aligned(access, p) || p >= 4096 then m
    else match access
      case AccessByte | AccessByteU => m[p := ByteOf(v, 0)]
      case AccessHalf | AccessHalfU => m[p := ByteOf(v, 0)][p + 1 := ByteOf(v, 1)]
      case AccessWord =>
        m[p := ByteOf(v, 0)][p + 1 := ByteOf(v, 1)][p + 2 := ByteOf(v, 2)][p + 3 := ByteOf(v, 3)]
  }

  /** On aligned addresses the flipped host load reads exactly the big-endian value. */
  lemma AlignedLoad(m: Memory, access: Access, a: nat)
    requires a < 4096 && Aligned(access, a)
    ensures Flip(access, a) < 4096
    ensures HostLoad(m, access, Flip(access, a)).lo == Fetch(m, access, a)
  {
    match access
    case AccessByte => ByteLoad(m, access, a);
    case AccessByteU => ByteLoad(m, access, a);
    case AccessHalf => AlignedHalfLoad(m, access, a);
    case AccessHalfU => AlignedHalfLoad(m, access, a);
    case AccessWord => AlignedWordLoad(m, a);
  }

  lemma ByteLoad(m: Memory, access: Access, a: nat)
    requires a < 4096 && (access.AccessByte? || access.AccessByteU?)
    ensures Flip(access, a) < 4096
    ensures HostLoad(m, access, Flip(access, a)).lo == Fetch(m, access, a)
  {
    ByteLane(a);
    ByteValue(m, access, a, Lane3(a));
  }

  lemma ByteLane(a: nat)
    requires a < 4096
    ensures Lane3(a) < 4096 && Lane3(a % 4096) == Lane3(a)
  {
  }

  lemma ByteValue(m: Memory, access: Access, a: nat, p: nat)
    requires p < 4096 && (access.AccessByte? || access.AccessByteU?) && Lane3(a % 4096) == p
    ensures HostLoad(m, access, p).lo == Fetch(m, access, a)
  {
    assert Get(m, a) == m[p];
  }

  lemma AlignedWordLoad(m: Memory, a: nat)
    requires a < 4096 && a % 4 == 0
    ensures HostLoad(m, AccessWord, a).lo == Fetch(m, AccessWord, a)
  {
    WordLanes(a);
  }

  lemma AlignedHalfLoad(m: Memory, access: Access, a: nat)
    requires a < 4096 && a % 2 == 0 && (access.AccessHalf? || access.AccessHalfU?)
    ensures Flip(access, a) < 4096
    ensures HostLoad(m, access, Flip(access, a)).lo == Fetch(m, access, a)
  {
    HalfLanes(a);
    HalfValue(m, access, a, Lane2(a));
  }

  lemma HalfValue(m: Memory, access: Access, a: nat, p: nat)
    requires p < 4095 && p % 2 == 0 && (access.AccessHalf? || access.AccessHalfU?)
    requires Lane3(a % 4096) == p + 1 && Lane3((a + 1) % 4096) == p
    ensures HostLoad(m, access, p).lo == Fetch(m, access, a)
  {
    assert Get(m, a) == m[p + 1] && Get(m, a + 1) == m[p];
  }

  lemma AlignedStore(m: Memory, access: Access, a: nat, v: Word)
    requires a < 4096 && Aligned(access, a)
    ensures Flip(access, a) < 4096
    ensures HostStore(m, access, Flip(access, a), v) == Deposit(m, access, a, v)
  {
    match access
    case AccessByte => ByteStore(m, access, a, v);
    case AccessByteU => ByteStore(m, access, a, v);
    case AccessHalf => AlignedHalfStore(m, access, a, v);
    case AccessHalfU => AlignedHalfStore(m, access, a, v);
    case AccessWord => AlignedWordStore(m, a, v);
  }

  lemma ByteStore(m: Memory, access: Access, a: nat, v: Word)
    requires a < 4096 && (access.AccessByte? || access.AccessByteU?)
    ensures Flip(access, a) < 4096
    ensures HostStore(m, access, Flip(access, a), v) == Deposit(m, access, a, v)
  {
    ByteLane(a);
  }

  lemma AlignedHalfStore(m: Memory, access: Access, a: nat, v: Word)
    requires a < 4096 && a % 2 == 0 && (access.AccessHalf? || access.AccessHalfU?)
    ensures Flip(access, a) < 4096
    ensures HostStore(m, access, Flip(access, a), v) == Deposit(m, access, a, v)
  {
    HalfLanes(a);
  }

  lemma AlignedWordStore(m: Memory, a: nat, v: Word)
    requires a < 4096 && a % 4 == 0
    ensures HostStore(m, AccessWord, a, v) == Deposit(m, AccessWord, a, v)
  {
    WordLanes(a);
    var b0, b1, b2, b3 := ByteOf(v, 0), ByteOf(v, 1), ByteOf(v, 2), ByteOf(v, 3);
    assert m[a := b0][a + 1 := b1][a + 2 := b2][a + 3 := b3] == m[a + 3 := b3][a + 2 := b2][a + 1 := b1][a := b0];
  }

  lemma HalfLanes(a: nat)
    requires a < 4096 && a % 2 == 0
    ensures Lane2(a) < 4095 && Lane2(a) % 2 == 0
    ensures Lane3(a % 4096) == Lane2(a) + 1 && Lane3((a + 1) % 4096) == Lane2(a)
  {
    var q := a / 4;
    SmallAddress(a);
    SmallAddress(a + 1);
    if a % 4 == 0 {
      assert a == 4 * q && (a + 1) / 4 == q;
    } else {
      assert a == 4 * q + 2 && (a + 1) / 4 == q;
    }
  }

  lemma SmallAddress(a: nat)
    requires a < 4096
    ensures a % 4096 == a
  {
  }

  lemma WordLanes(a: nat)
    requires a < 4096 && a % 4 == 0
    ensures a < 4093
    ensures Lane3(a % 4096) == a + 3 && Lane3((a + 1) % 4096) == a + 2
    ensures Lane3((a + 2) % 4096) == a + 1 && Lane3((a + 3) % 4096) == a
  {
  }
}
