/**
 * Vector loads and stores of the interpreter. Data memory and the vector registers are kept
 * byte-swapped for a little-endian host: logical address a of memory is host byte a ^ 3, logical byte n
 * of the register file is host byte n ^ 1. The instructions move host bytes and host halfwords through
 * many-way switches on the alignment; the references below move logical bytes one by one.
 *
 * An address is given as 8 * q + c: the group of eight it lies in, and the place in the group.
 */
module VectorTransfer {
  import opened Words
  import opened Dmem

  /** Thirty-two registers of sixteen bytes, each followed by sixteen bytes of room to spill into. */
  const FILE: nat := 1024

  // ----- logical bytes -----

  /** t ^ 3 for a place t in a group of eight. */
  function Flip3(t: nat): (r: nat)
    requires t < 8
    ensures r < 8
  {
    if t < 4 then 3 - t else 11 - t
  }

  /** The group after q; memory wraps around. */
  function After(q: nat): (r: nat)
    requires q < 512
    ensures r < 512
  {
    if q == 511 then 0 else q + 1
  }

  /** The host byte of place t of group q or, from eight on, of the group after it. */
  function Place(q: nat, t: nat): (p: nat)
    requires q < 512 && t < 16
    ensures p < 4096
  {
    if t < 8 then 8 * q + Flip3(t) else 8 * After(q) + Flip3(t - 8)
  }

  /** It is the byte at the logical address, going round at 4 KiB. */
  lemma PlaceIsAddress(m: Memory, q: nat, t: nat)
    requires q < 512 && t < 16
    ensures m[Place(q, t)] == Get(m, 8 * q + t)
  {
    if t < 8 {
      GroupByte(q, t);
    } else if q < 511 {
      GroupByte(q + 1, t - 8);
    } else {
      GroupByte(0, t - 8);
    }
  }

  lemma GroupByte(q: nat, t: nat)
    requires q < 512 && t < 8
    ensures (8 * q + t) % 4096 == 8 * q + t && Lane3(8 * q + t) == 8 * q + Flip3(t)
  {
    if t < 4 {
      WordByte(2 * q, t);
    } else {
      WordByte(2 * q + 1, t - 4);
    }
  }

  lemma WordByte(k: nat, r: nat)
    requires r < 4
    ensures Lane3(4 * k + r) == 4 * k + 3 - r
  {
  }

  /** An address below 8 KiB, masked to 12 bits. */
  function Wrap(a: nat): nat { if a < 4096 then a else a - 4096 }

  // ----- LDV -----

  /** Six logical bytes of the register file from v on, and bytes 6 and 7 from w on, are those of memory from place c of group q on. */
  ghost predicate SameSixAndTwo(vr: array<Byte>, v: nat, w: nat, dmem: array<Byte>, q: nat, c: nat)
    requires vr.Length == FILE && dmem.Length == 4096 && v + 8 <= FILE && w + 8 <= FILE && q < 512 && c < 8
    reads vr, dmem
  {
    && vr[v + 1] == dmem[Place(q, c)] && vr[v] == dmem[Place(q, c + 1)]
    && vr[v + 3] == dmem[Place(q, c + 2)] && vr[v + 2] == dmem[Place(q, c + 3)]
    && vr[v + 5] == dmem[Place(q, c + 4)] && vr[v + 4] == dmem[Place(q, c + 5)]
    && vr[w + 7] == dmem[Place(q, c + 6)] && vr[w + 6] == dmem[Place(q, c + 7)]
  }

  /** Eight logical bytes of the register file from v on are those of memory from place c of group q on. */
  ghost predicate SameEight(vr: array<Byte>, v: nat, dmem: array<Byte>, q: nat, c: nat)
    requires vr.Length == FILE && dmem.Length == 4096 && v + 8 <= FILE && q < 512 && c < 8
    reads vr, dmem
  {
    SameSixAndTwo(vr, v, v, dmem, q, c)
  }

  method Ldv0(vr: array<Byte>, dmem: array<Byte>, v: nat, q: nat)
    requires vr != dmem && vr.Length == FILE && dmem.Length == 4096 && v + 8 <= FILE && q < 512
    modifies vr
    ensures SameEight(vr, v, dmem, q, 0)
    ensures forall k :: 0 <= k < FILE && (k < v || v + 8 <= k) ==> vr[k] == old(vr[k])
  {
    var addr := 8 * q + 0;
    vr[v + 0], vr[v + 1] := dmem[addr + 2], dmem[addr + 2 + 1];
    vr[v + 2], vr[v + 3] := dmem[addr], dmem[addr + 1];
    vr[v + 4], vr[v + 5] := dmem[addr + 6], dmem[addr + 6 + 1];
    vr[v + 6], vr[v + 7] := dmem[addr + 4], dmem[addr + 4 + 1];
  }

  method Ldv1(vr: array<Byte>, dmem: array<Byte>, v: nat, q: nat)
    requires vr != dmem && vr.Length == FILE && dmem.Length == 4096 && v + 8 <= FILE && q < 512
    modifies vr
    ensures SameEight(vr, v, dmem, q, 1)
    ensures forall k :: 0 <= k < FILE && (k < v || v + 8 <= k) ==> vr[k] == old(vr[k])
  {
    var addr := 8 * q + 1;
    vr[v + 0], vr[v + 1] := dmem[addr], dmem[addr + 1];
    vr[v + 2 + 1] := dmem[addr + 2 - 3];
    vr[v + 3 - 1] := dmem[addr + 3 + 3];
    vr[v + 4], vr[v + 5] := dmem[addr + 4], dmem[addr + 4 + 1];
    vr[v + 6 + 1] := dmem[addr + 6 - 3];
    addr := Wrap(addr + 7 + 3);
    vr[v + 7 - 1] := dmem[addr];
  }

  method Ldv2(vr: array<Byte>, dmem: array<Byte>, v: nat, q: nat)
    requires vr != dmem && vr.Length == FILE && dmem.Length == 4096 && v + 8 <= FILE && q < 512
    modifies vr
    ensures SameEight(vr, v, dmem, q, 2)
    ensures forall k :: 0 <= k < FILE && (k < v || v + 8 <= k) ==> vr[k] == old(vr[k])
  {
    var addr := 8 * q + 2;
    vr[v + 0], vr[v + 1] := dmem[addr - 2], dmem[addr - 2 + 1];
    vr[v + 2], vr[v + 3] := dmem[addr + 2 + 2], dmem[addr + 2 + 2 + 1];
    vr[v + 4], vr[v + 5] := dmem[addr + 4 - 2], dmem[addr + 4 - 2 + 1];
    addr := Wrap(addr + 6 + 2);
    vr[v + 6], vr[v + 7] := dmem[addr], dmem[addr + 1];
  }

  method Ldv3(vr: array<Byte>, dmem: array<Byte>, v: nat, q: nat)
    requires vr != dmem && vr.Length == FILE && dmem.Length == 4096 && v + 8 <= FILE && q < 512
    modifies vr
    ensures SameEight(vr, v, dmem, q, 3)
    ensures forall k :: 0 <= k < FILE && (k < v || v + 8 <= k) ==> vr[k] == old(vr[k])
  {
    var addr := 8 * q + 3;
    vr[v + 0 + 1] := dmem[addr - 3];
    vr[v + 1 - 1] := dmem[addr + 1 + 3];
    vr[v + 2], vr[v + 3] := dmem[addr + 2], dmem[addr + 2 + 1];
    vr[v + 4 + 1] := dmem[addr + 4 - 3];
    addr := Wrap(addr + 5 + 3);
    vr[v + 5 - 1] := dmem[addr];
    vr[v + 6], vr[v + 7] := dmem[addr + 1 - 3], dmem[addr + 1 - 3 + 1];
  }

  method Ldv4(vr: array<Byte>, dmem: array<Byte>, v: nat, q: nat)
    requires vr != dmem && vr.Length == FILE && dmem.Length == 4096 && v + 8 <= FILE && q < 512
    modifies vr
    ensures SameEight(vr, v, dmem, q, 4)
    ensures forall k :: 0 <= k < FILE && (k < v || v + 8 <= k) ==> vr[k] == old(vr[k])
  {
    var addr := 8 * q + 4;
    vr[v + 0], vr[v + 1] := dmem[addr + 2], dmem[addr + 2 + 1];
    vr[v + 2], vr[v + 3] := dmem[addr], dmem[addr + 1];
    addr := Wrap(addr + 4);
    vr[v + 4], vr[v + 5] := dmem[addr + 2], dmem[addr + 2 + 1];
    vr[v + 6], vr[v + 7] := dmem[addr], dmem[addr + 1];
  }

  method Ldv5(vr: array<Byte>, dmem: array<Byte>, v: nat, q: nat)
    requires vr != dmem && vr.Length == FILE && dmem.Length == 4096 && v + 8 <= FILE && q < 512
    modifies vr
    ensures SameEight(vr, v, dmem, q, 5)
    ensures forall k :: 0 <= k < FILE && (k < v || v + 8 <= k) ==> vr[k] == old(vr[k])
  {
    var addr := 8 * q + 5;
    vr[v + 0], vr[v + 1] := dmem[addr], dmem[addr + 1];
    vr[v + 2 + 1] := dmem[addr + 2 - 3];
    addr := Wrap(addr + 3);
    vr[v + 3 - 1] := dmem[addr + 3];
    vr[v + 4], vr[v + 5] := dmem[addr + 1], dmem[addr + 1 + 1];
    vr[v + 6 + 1] := dmem[addr];
    vr[v + 7 - 1] := dmem[addr + 7];
  }

  method Ldv6(vr: array<Byte>, dmem: array<Byte>, v: nat, q: nat)
    requires vr != dmem && vr.Length == FILE && dmem.Length == 4096 && v + 8 <= FILE && q < 512
    modifies vr
    ensures SameEight(vr, v, dmem, q, 6)
    ensures forall k :: 0 <= k < FILE && (k < v || v + 8 <= k) ==> vr[k] == old(vr[k])
  {
    var addr := 8 * q + 6;
    vr[v + 0], vr[v + 1] := dmem[addr - 2], dmem[addr - 2 + 1];
    addr := Wrap(addr + 2);
    vr[v + 2], vr[v + 3] := dmem[addr + 2], dmem[addr + 2 + 1];
    vr[v + 4], vr[v + 5] := dmem[addr], dmem[addr + 1];
    vr[v + 6], vr[v + 7] := dmem[addr + 6], dmem[addr + 6 + 1];
  }

  method Ldv7(vr: array<Byte>, dmem: array<Byte>, v: nat, q: nat)
    requires vr != dmem && vr.Length == FILE && dmem.Length == 4096 && v + 8 <= FILE && q < 512
    modifies vr
    ensures SameEight(vr, v, dmem, q, 7)
    ensures forall k :: 0 <= k < FILE && (k < v || v + 8 <= k) ==> vr[k] == old(vr[k])
  {
    var addr := 8 * q + 7;
    vr[v + 0 + 1] := dmem[addr - 3];
    addr := Wrap(addr + 1);
    vr[v + 1 - 1] := dmem[addr + 3];
    vr[v + 2], vr[v + 3] := dmem[addr + 1], dmem[addr + 1 + 1];
    vr[v + 4 + 1] := dmem[addr];
    vr[v + 5 - 1] := dmem[addr + 7];
    vr[v + 6], vr[v + 7] := dmem[addr + 5], dmem[addr + 5 + 1];
  }

  /** Register vt from element e on; what goes past byte 15 lands in the room behind the register. */
  method Ldv(vr: array<Byte>, dmem: array<Byte>, vt: nat, e: nat, q: nat, c: nat)
    requires vr != dmem && vr.Length == FILE && dmem.Length == 4096 && q < 512 && c < 8
    requires e < 16 && vt < 32
    modifies vr
    ensures e % 2 == 0 ==> SameEight(vr, 32 * vt + e, dmem, q, c)
    ensures forall k :: 0 <= k < FILE && (e % 2 == 1 || k < 32 * vt + e || 32 * vt + e + 8 <= k) ==> vr[k] == old(vr[k])
  {
    if e % 2 == 1 { return; }
    var v := 32 * vt + e;
    match c
    case 0 => Ldv0(vr, dmem, v, q);
    case 1 => Ldv1(vr, dmem, v, q);
    case 2 => Ldv2(vr, dmem, v, q);
    case 3 => Ldv3(vr, dmem, v, q);
    case 4 => Ldv4(vr, dmem, v, q);
    case 5 => Ldv5(vr, dmem, v, q);
    case 6 => Ldv6(vr, dmem, v, q);
    case _ => Ldv7(vr, dmem, v, q);
  }

  // ----- SDV -----

  /** a is not one of the eight bytes from place c of group q on. */
  predicate Elsewhere(a: nat, q: nat, c: nat)
    requires q < 512 && c < 8
  {
    && a != Place(q, c) && a != Place(q, c + 1) && a != Place(q, c + 2) && a != Place(q, c + 3)
    && a != Place(q, c + 4) && a != Place(q, c + 5) && a != Place(q, c + 6) && a != Place(q, c + 7)
  }

  method Sdv0(vr: array<Byte>, dmem: array<Byte>, v: nat, q: nat)
    requires vr != dmem && vr.Length == FILE && dmem.Length == 4096 && v + 8 <= FILE && q < 512
    modifies dmem
    ensures SameEight(vr, v, dmem, q, 0)
    ensures forall a :: 0 <= a < 4096 && Elsewhere(a, q, 0) ==> dmem[a] == old(dmem[a])
  {
    var addr := 8 * q + 0;
    dmem[addr + 2], dmem[addr + 2 + 1] := vr[v + 0], vr[v + 1];
    dmem[addr], dmem[addr + 1] := vr[v + 2], vr[v + 3];
    dmem[addr + 6], dmem[addr + 6 + 1] := vr[v + 4], vr[v + 5];
    dmem[addr + 4], dmem[addr + 4 + 1] := vr[v + 6], vr[v + 7];
  }

  method Sdv1(vr: array<Byte>, dmem: array<Byte>, v: nat, q: nat)
    requires vr != dmem && vr.Length == FILE && dmem.Length == 4096 && v + 8 <= FILE && q < 512
    modifies dmem
    ensures SameEight(vr, v, dmem, q, 1)
    ensures forall a :: 0 <= a < 4096 && Elsewhere(a, q, 1) ==> dmem[a] == old(dmem[a])
  {
    var addr := 8 * q + 1;
    dmem[addr], dmem[addr + 1] := vr[v + 0], vr[v + 1];
    dmem[addr + 2 - 3] := vr[v + 2 + 1];
    dmem[addr + 3 + 3] := vr[v + 3 - 1];
    dmem[addr + 4], dmem[addr + 4 + 1] := vr[v + 4], vr[v + 5];
    dmem[addr + 6 - 3] := vr[v + 6 + 1];
    addr := Wrap(addr + 7 + 3);
    dmem[addr] := vr[v + 7 - 1];
  }

  method Sdv2(vr: array<Byte>, dmem: array<Byte>, v: nat, q: nat)
    requires vr != dmem && vr.Length == FILE && dmem.Length == 4096 && v + 8 <= FILE && q < 512
    modifies dmem
    ensures SameEight(vr, v, dmem, q, 2)
    ensures forall a :: 0 <= a < 4096 && Elsewhere(a, q, 2) ==> dmem[a] == old(dmem[a])
  {
    var addr := 8 * q + 2;
    dmem[addr - 2], dmem[addr - 2 + 1] := vr[v + 0], vr[v + 1];
    dmem[addr + 2 + 2], dmem[addr + 2 + 2 + 1] := vr[v + 2], vr[v + 3];
    dmem[addr + 4 - 2], dmem[addr + 4 - 2 + 1] := vr[v + 4], vr[v + 5];
    addr := Wrap(addr + 6 + 2);
    dmem[addr], dmem[addr + 1] := vr[v + 6], vr[v + 7];
  }

  method Sdv3(vr: array<Byte>, dmem: array<Byte>, v: nat, w: nat, q: nat)
    requires vr != dmem && vr.Length == FILE && dmem.Length == 4096 && v + 8 <= FILE && w + 8 <= FILE && q < 512
    modifies dmem
    ensures SameSixAndTwo(vr, v, w, dmem, q, 3)
    ensures forall a :: 0 <= a < 4096 && Elsewhere(a, q, 3) ==> dmem[a] == old(dmem[a])
  {
    var addr := 8 * q + 3;
    dmem[addr - 3] := vr[v + 0 + 1];
    dmem[addr + 1 + 3] := vr[v + 1 - 1];
    dmem[addr + 2], dmem[addr + 2 + 1] := vr[v + 2], vr[v + 3];
    dmem[addr + 4 - 3] := vr[v + 4 + 1];
    addr := Wrap(addr + 5 + 3);
    dmem[addr] := vr[v + 5 - 1];
    dmem[addr + 1 - 3], dmem[addr + 1 - 3 + 1] := vr[w + 6], vr[w + 7];
  }

  method Sdv4(vr: array<Byte>, dmem: array<Byte>, v: nat, q: nat)
    requires vr != dmem && vr.Length == FILE && dmem.Length == 4096 && v + 8 <= FILE && q < 512
    modifies dmem
    ensures SameEight(vr, v, dmem, q, 4)
    ensures forall a :: 0 <= a < 4096 && Elsewhere(a, q, 4) ==> dmem[a] == old(dmem[a])
  {
    var addr := 8 * q + 4;
    dmem[addr + 2], dmem[addr + 2 + 1] := vr[v + 0], vr[v + 1];
    dmem[addr], dmem[addr + 1] := vr[v + 2], vr[v + 3];
    addr := Wrap(addr + 4);
    dmem[addr + 2], dmem[addr + 2 + 1] := vr[v + 4], vr[v + 5];
    dmem[addr], dmem[addr + 1] := vr[v + 6], vr[v + 7];
  }

  method Sdv5(vr: array<Byte>, dmem: array<Byte>, v: nat, q: nat)
    requires vr != dmem && vr.Length == FILE && dmem.Length == 4096 && v + 8 <= FILE && q < 512
    modifies dmem
    ensures SameEight(vr, v, dmem, q, 5)
    ensures forall a :: 0 <= a < 4096 && Elsewhere(a, q, 5) ==> dmem[a] == old(dmem[a])
  {
    var addr := 8 * q + 5;
    dmem[addr], dmem[addr + 1] := vr[v + 0], vr[v + 1];
    dmem[addr + 2 - 3] := vr[v + 2 + 1];
    addr := Wrap(addr + 3);
    dmem[addr + 3] := vr[v + 3 - 1];
    dmem[addr + 1], dmem[addr + 1 + 1] := vr[v + 4], vr[v + 5];
    dmem[addr] := vr[v + 6 + 1];
    dmem[addr + 7] := vr[v + 7 - 1];
  }

  method Sdv6(vr: array<Byte>, dmem: array<Byte>, v: nat, q: nat)
    requires vr != dmem && vr.Length == FILE && dmem.Length == 4096 && v + 8 <= FILE && q < 512
    modifies dmem
    ensures SameEight(vr, v, dmem, q, 6)
    ensures forall a :: 0 <= a < 4096 && Elsewhere(a, q, 6) ==> dmem[a] == old(dmem[a])
  {
    var addr := 8 * q + 6;
    dmem[addr - 2], dmem[addr - 2 + 1] := vr[v + 0], vr[v + 1];
    addr := Wrap(addr + 2);
    dmem[addr + 2], dmem[addr + 2 + 1] := vr[v + 2], vr[v + 3];
    dmem[addr], dmem[addr + 1] := vr[v + 4], vr[v + 5];
    dmem[addr + 6], dmem[addr + 6 + 1] := vr[v + 6], vr[v + 7];
  }

  method Sdv7(vr: array<Byte>, dmem: array<Byte>, v: nat, q: nat)
    requires vr != dmem && vr.Length == FILE && dmem.Length == 4096 && v + 8 <= FILE && q < 512
    modifies dmem
    ensures SameEight(vr, v, dmem, q, 7)
    ensures forall a :: 0 <= a < 4096 && Elsewhere(a, q, 7) ==> dmem[a] == old(dmem[a])
  {
    var addr := 8 * q + 7;
    dmem[addr - 3] := vr[v + 0 + 1];
    addr := Wrap(addr + 1);
    dmem[addr + 3] := vr[v + 1 - 1];
    dmem[addr + 1], dmem[addr + 1 + 1] := vr[v + 2], vr[v + 3];
    dmem[addr] := vr[v + 4 + 1];
    dmem[addr + 7] := vr[v + 5 - 1];
    dmem[addr + 5], dmem[addr + 5 + 1] := vr[v + 6], vr[v + 7];
  }

  /** The eight-way switch; at place 3 the last halfword is taken from element 6, whatever e is. */
  method SdvSwitch(vr: array<Byte>, dmem: array<Byte>, v: nat, w: nat, q: nat, c: nat)
    requires vr != dmem && vr.Length == FILE && dmem.Length == 4096 && v + 8 <= FILE && w + 8 <= FILE && q < 512 && c < 8
    modifies dmem
    ensures SameSixAndTwo(vr, v, if c == 3 then w else v, dmem, q, c)
    ensures forall a :: 0 <= a < 4096 && Elsewhere(a, q, c) ==> dmem[a] == old(dmem[a])
  {
    match c
    case 0 => Sdv0(vr, dmem, v, q);
    case 1 => Sdv1(vr, dmem, v, q);
    case 2 => Sdv2(vr, dmem, v, q);
    case 3 => Sdv3(vr, dmem, v, w, q);
    case 4 => Sdv4(vr, dmem, v, q);
    case 5 => Sdv5(vr, dmem, v, q);
    case 6 => Sdv6(vr, dmem, v, q);
    case _ => Sdv7(vr, dmem, v, q);
  }

  // ----- byte by byte: SDV with an odd element or one above 8, SQV with an element other than 0 -----

  /** Byte n of a register: where the host keeps it. */
  function Lane1(n: nat): nat { if n % 2 == 0 then n + 1 else n - 1 }

  /** Logical byte n of a register, going round after sixteen. */
  function RegisterByte(vr: array<Byte>, vt: nat, n: nat): Byte
    requires vr.Length == FILE && vt < 32
    reads vr
  {
    vr[32 * vt + Lane1(n % 16)]
  }

  /** Byte k of the file is behind register vt. */
  predicate Room(k: nat, vt: nat) { 32 * vt + 16 <= k < 32 * vt + 32 }

  /** The room behind register vt repeats the register; nothing else has changed. */
  ghost predicate Mirrored(before: seq<Byte>, vr: array<Byte>, vt: nat)
    requires |before| == vr.Length == FILE && vt < 32
    reads vr
  {
    && (forall k :: 0 <= k < FILE && !Room(k, vt) ==> vr[k] == before[k])
    && (forall k :: 0 <= k < FILE && Room(k, vt) ==> vr[k] == before[k - 16])
  }

  /** vector_copy into the room behind the register. */
  method Mirror(vr: array<Byte>, vt: nat)
    requires vr.Length == FILE && vt < 32
    modifies vr
    ensures Mirrored(old(vr[..]), vr, vt)
  {
    for i := 0 to 16
      invariant forall k :: 0 <= k < FILE ==> vr[k] == if 32 * vt + 16 <= k < 32 * vt + 16 + i then old(vr[k - 16]) else old(vr[k])
    {
      vr[32 * vt + 16 + i] := vr[32 * vt + i];
    }
  }

  lemma LaneRound(n: nat)
    requires n < 32
    ensures Lane1(n) < 32 && Lane1(n % 16) < 16
    ensures Lane1(n) == if n < 16 then Lane1(n % 16) else Lane1(n % 16) + 16
  {
  }

  /** Reading past the end of a mirrored register goes round in it. */
  lemma GoesRound(before: seq<Byte>, vr: array<Byte>, vt: nat, n: nat)
    requires |before| == vr.Length == FILE && vt < 32 && n < 32 && Mirrored(before, vr, vt)
    ensures Lane1(n) < 32 && vr[32 * vt + Lane1(n)] == RegisterByte(vr, vt, n)
  {
    LaneRound(n);
    var k := 32 * vt + Lane1(n % 16);
    assert vr[k] == before[k];
    assert n >= 16 ==> vr[k + 16] == before[k];
  }

  /** The host byte of logical address a. */
  function HostByte(a: nat): (p: nat)
    requires a < 4096
    ensures p < 4096
  {
    LaneInside(a);
    Lane3(a)
  }

  lemma LaneInside(a: nat)
    requires a < 4096
    ensures 0 <= Lane3(a) < 4096
  {
  }

  lemma LanesDiffer(a: nat, b: nat)
    requires a < 4096 && b < 4096 && a != b
    ensures HostByte(a) != HostByte(b)
  {
  }

  /** How far a lies behind addr, going round at 4 KiB. */
  function Behind(a: nat, addr: nat): nat
    requires a < 4096 && addr < 4096
  {
    if a >= addr then a - addr else a + 4096 - addr
  }

  /** The first n bytes from the address on hold the register from element e on; the others are as before. */
  ghost predicate BytesStored(before: seq<Byte>, vr: array<Byte>, dmem: array<Byte>, vt: nat, e: nat, addr: nat, n: nat)
    requires |before| == dmem.Length == 4096 && vr.Length == FILE && vt < 32 && addr < 4096
    reads vr, dmem
  {
    forall a :: 0 <= a < 4096 ==>
      dmem[HostByte(a)] == if Behind(a, addr) < n then RegisterByte(vr, vt, e + Behind(a, addr)) else before[HostByte(a)]
  }

  /** The byte loop of both instructions. */
  method StoreBytes(vr: array<Byte>, dmem: array<Byte>, vt: nat, e: nat, addr: nat, count: nat)
    requires vr != dmem && vr.Length == FILE && dmem.Length == 4096 && vt < 32 && e < 16 && addr < 4096 && count <= 16
    modifies vr, dmem
    ensures Mirrored(old(vr[..]), vr, vt) && BytesStored(old(dmem[..]), vr, dmem, vt, e, addr, count)
  {
    Mirror(vr, vt);
    for i := 0 to count
      invariant Mirrored(old(vr[..]), vr, vt) && BytesStored(old(dmem[..]), vr, dmem, vt, e, addr, i)
    {
      GoesRound(old(vr[..]), vr, vt, e + i);
      StoreByte(vr, dmem, vt, e, addr, i, old(dmem[..]));
    }
  }

  method StoreByte(vr: array<Byte>, dmem: array<Byte>, vt: nat, e: nat, addr: nat, i: nat, ghost before: seq<Byte>)
    requires vr != dmem && vr.Length == FILE && |before| == dmem.Length == 4096 && vt < 32 && addr < 4096 && e < 16 && i < 16
    requires Lane1(e + i) < 32 && vr[32 * vt + Lane1(e + i)] == RegisterByte(vr, vt, e + i)
    requires BytesStored(before, vr, dmem, vt, e, addr, i)
    modifies dmem
    ensures BytesStored(before, vr, dmem, vt, e, addr, i + 1)
  {
    ghost var now := dmem[..];
    var at := Wrap(addr + i);
    dmem[HostByte(at)] := vr[32 * vt + Lane1(e + i)];
    forall a | 0 <= a < 4096 && a != at
      ensures dmem[HostByte(a)] == now[HostByte(a)]
    {
      LanesDiffer(a, at);
    }
  }

  lemma BlockEnds(addr: nat)
    requires addr < 4096
    ensures addr + 16 - addr % 16 <= 4096
  {
  }

  /** Bytes up to the end of the sixteen-byte block, from element e on, which wraps round in the register. */
  method SqvBytes(vr: array<Byte>, dmem: array<Byte>, vt: nat, e: nat, addr: nat)
    requires vr != dmem && vr.Length == FILE && dmem.Length == 4096 && vt < 32 && 0 < e < 16 && addr < 4096
    modifies vr, dmem
    ensures Mirrored(old(vr[..]), vr, vt)
    ensures forall a :: 0 <= a < 4096 ==>
              dmem[HostByte(a)] == if addr <= a < addr + 16 - addr % 16 then RegisterByte(vr, vt, e + a - addr) else old(dmem[HostByte(a)])
  {
    BlockEnds(addr);
    StoreBytes(vr, dmem, vt, e, addr, 16 - addr % 16);
  }

  /** Byte i of a store from element e, which wraps round in the register, is in its place. */
  ghost predicate ByteStored(vr: array<Byte>, dmem: array<Byte>, vt: nat, e: nat, q: nat, c: nat, i: nat)
    requires vr.Length == FILE && dmem.Length == 4096 && vt < 32 && q < 512 && c < 8 && i < 8
    reads vr, dmem
  {
    dmem[Place(q, c + i)] == RegisterByte(vr, vt, e + i)
  }

  /** Place i behind the address, as a logical address and as a host byte. */
  lemma PlaceIsHost(q: nat, c: nat, i: nat)
    requires q < 512 && c < 8 && i < 8
    ensures var a := Wrap(8 * q + c + i); a < 4096 && HostByte(a) == Place(q, c + i) && Behind(a, 8 * q + c) == i
  {
    var t := c + i;
    if t < 8 {
      GroupByte(q, t);
    } else {
      GroupByte(After(q), t - 8);
    }
    WrapBehind(8 * q + c, i);
  }

  lemma WrapBehind(addr: nat, i: nat)
    requires addr < 4096 && i < 8
    ensures Wrap(addr + i) < 4096 && Behind(Wrap(addr + i), addr) == i
  {
  }

  /** Host bytes that are none of the eight belong to addresses further on. */
  lemma ElsewhereIsFar(p: nat, q: nat, c: nat)
    requires p < 4096 && q < 512 && c < 8 && Elsewhere(p, q, c)
    ensures Lane3(p) < 4096 && HostByte(Lane3(p)) == p && Behind(Lane3(p), 8 * q + c) >= 8
  {
    LaneTwice(p);
    var i := Behind(Lane3(p), 8 * q + c);
    if i < 8 {
      BehindWrap(Lane3(p), 8 * q + c);
      PlaceIsHost(q, c, i);
      EightOffsets(i);
    }
  }

  lemma EightOffsets(i: nat)
    requires i < 8
    ensures i == 0 || i == 1 || i == 2 || i == 3 || i == 4 || i == 5 || i == 6 || i == 7
  {
  }

  lemma BehindWrap(a: nat, addr: nat)
    requires a < 4096 && addr < 4096
    ensures Wrap(addr + Behind(a, addr)) == a
  {
  }

  lemma LaneTwice(p: nat)
    requires p < 4096
    ensures Lane3(p) < 4096 && HostByte(Lane3(p)) == p
  {
    LaneInside(p);
    LaneSplit(p / 4, p % 4);
  }

  lemma LaneSplit(k: nat, r: nat)
    requires r < 4
    ensures Lane3(4 * k + r) == 4 * k + (3 - r) && Lane3(4 * k + (3 - r)) == 4 * k + r
  {
  }

  /** Odd elements, and elements above 8: one byte at a time. */
  method SdvBytes(vr: array<Byte>, dmem: array<Byte>, vt: nat, e: nat, q: nat, c: nat)
    requires vr != dmem && vr.Length == FILE && dmem.Length == 4096 && vt < 32 && e < 16 && q < 512 && c < 8
    modifies vr, dmem
    ensures Mirrored(old(vr[..]), vr, vt)
    ensures forall i :: 0 <= i < 8 ==> ByteStored(vr, dmem, vt, e, q, c, i)
    ensures forall a :: 0 <= a < 4096 && Elsewhere(a, q, c) ==> dmem[a] == old(dmem[a])
  {
    StoreBytes(vr, dmem, vt, e, 8 * q + c, 8);
    forall i | 0 <= i < 8
      ensures ByteStored(vr, dmem, vt, e, q, c, i)
    {
      PlaceIsHost(q, c, i);
    }
    forall a | 0 <= a < 4096 && Elsewhere(a, q, c)
      ensures dmem[a] == old(dmem[a])
    {
      ElsewhereIsFar(a, q, c);
    }
  }

  predicate ByByte(e: nat) { e > 8 || e % 2 == 1 }

  method Sdv(vr: array<Byte>, dmem: array<Byte>, vt: nat, e: nat, q: nat, c: nat)
    requires vr != dmem && vr.Length == FILE && dmem.Length == 4096 && vt < 32 && e < 16 && q < 512 && c < 8
    modifies vr, dmem
    ensures e <= 8 && e % 2 == 0 ==> vr[..] == old(vr[..]) && SameSixAndTwo(vr, 32 * vt + e, 32 * vt + (if c == 3 then 0 else e), dmem, q, c)
    ensures e > 8 || e % 2 == 1 ==> Mirrored(old(vr[..]), vr, vt) && forall i :: 0 <= i < 8 ==> ByteStored(vr, dmem, vt, e, q, c, i)
    ensures forall a :: 0 <= a < 4096 && Elsewhere(a, q, c) ==> dmem[a] == old(dmem[a])
  {
    if ByByte(e) {
      SdvBytes(vr, dmem, vt, e, q, c);
    } else {
      SdvSwitch(vr, dmem, 32 * vt + e, 32 * vt, q, c);
    }
  }

  /** A store mirrors the byte loop exactly when the place is not 3, or the halfword taken instead is the same. */
  lemma SdvExact(vr: array<Byte>, dmem: array<Byte>, v: nat, w: nat, q: nat, c: nat)
    requires vr.Length == FILE && dmem.Length == 4096 && v + 8 <= FILE && w + 8 <= FILE && q < 512 && c < 8
    requires SameSixAndTwo(vr, v, if c == 3 then w else v, dmem, q, c)
    ensures SameEight(vr, v, dmem, q, c) <==> c != 3 || (vr[v + 6] == vr[w + 6] && vr[v + 7] == vr[w + 7])
  {
  }

  /** Two register files agree on the registers proper, the room behind them aside. */
  predicate SameRegisters(a: seq<Byte>, b: seq<Byte>)
    requires |a| == |b| == FILE
  {
    forall k :: 0 <= k < FILE && k % 32 < 16 ==> a[k] == b[k]
  }

  /** SameSixAndTwo of register and memory contents. */
  predicate HoldSixAndTwo(file: seq<Byte>, v: nat, w: nat, mem: seq<Byte>, q: nat, c: nat)
    requires |file| == FILE && |mem| == 4096 && v + 8 <= FILE && w + 8 <= FILE && q < 512 && c < 8
  {
    && file[v + 1] == mem[Place(q, c)] && file[v] == mem[Place(q, c + 1)]
    && file[v + 3] == mem[Place(q, c + 2)] && file[v + 2] == mem[Place(q, c + 3)]
    && file[v + 5] == mem[Place(q, c + 4)] && file[v + 4] == mem[Place(q, c + 5)]
    && file[w + 7] == mem[Place(q, c + 6)] && file[w + 6] == mem[Place(q, c + 7)]
  }

  predicate OnlyEight(before: seq<Byte>, after: seq<Byte>, v: nat)
    requires |before| == |after| == FILE
  {
    forall k :: 0 <= k < FILE && (k < v || v + 8 <= k) ==> after[k] == before[k]
  }

  /** Byte i of a store from element e is in its place. */
  predicate StoredPlace(stored: seq<Byte>, mem: seq<Byte>, vt: nat, e: nat, q: nat, c: nat, i: nat)
    requires |stored| == FILE && |mem| == 4096 && vt < 32 && q < 512 && c < 8 && i < 8
  {
    mem[Place(q, c + i)] == stored[32 * vt + Lane1((e + i) % 16)]
  }

  lemma MirrorKeeps(before: seq<Byte>, vr: array<Byte>, vt: nat)
    requires |before| == vr.Length == FILE && vt < 32 && Mirrored(before, vr, vt)
    ensures SameRegisters(before, vr[..])
  {
    forall k | 0 <= k < FILE && k % 32 < 16
      ensures vr[k] == before[k]
    {
      OutsideRoom(k, vt);
    }
  }

  lemma OutsideRoom(k: nat, vt: nat)
    requires k % 32 < 16
    ensures !Room(k, vt)
  {
  }

  /** Words stored from v, the last from w, and loaded back to v. */
  lemma WordsBack(before: seq<Byte>, after: seq<Byte>, mem: seq<Byte>, vt: nat, e: nat, w: nat, q: nat, c: nat)
    requires |before| == |after| == FILE && |mem| == 4096 && vt < 32 && e <= 8 && w + 8 <= FILE && q < 512 && c < 8
    requires HoldSixAndTwo(before, 32 * vt + e, w, mem, q, c) && HoldSixAndTwo(after, 32 * vt + e, 32 * vt + e, mem, q, c)
    requires OnlyEight(before, after, 32 * vt + e)
    ensures SameRegisters(before, after) <==> before[32 * vt + e + 6] == before[w + 6] && before[32 * vt + e + 7] == before[w + 7]
  {
    InRegister(vt, e + 6);
    InRegister(vt, e + 7);
    forall k | 0 <= k < FILE && k != 32 * vt + e + 6 && k != 32 * vt + e + 7
      ensures after[k] == before[k]
    {
      if 32 * vt + e <= k < 32 * vt + e + 8 { EightPlaces(32 * vt + e, k); }
    }
  }

  lemma InRegister(vt: nat, n: nat)
    requires n < 16
    ensures (32 * vt + n) % 32 == n
  {
  }

  /** Bytes stored one by one from an even element and loaded back as words. */
  lemma BytesBack(before: seq<Byte>, stored: seq<Byte>, after: seq<Byte>, mem: seq<Byte>, vt: nat, e: nat, q: nat, c: nat)
    requires |before| == |stored| == |after| == FILE && |mem| == 4096 && vt < 32 && e < 16 && e % 2 == 0 && q < 512 && c < 8
    requires SameRegisters(before, stored) && OnlyEight(stored, after, 32 * vt + e)
    requires forall i: nat :: i < 8 ==> StoredPlace(stored, mem, vt, e, q, c, i)
    requires HoldSixAndTwo(after, 32 * vt + e, 32 * vt + e, mem, q, c)
    ensures SameRegisters(before, after)
  {
    forall k | 0 <= k < FILE && k % 32 < 16
      ensures after[k] == before[k]
    {
      if 32 * vt + e <= k < 32 * vt + e + 8 { ByteBack(stored, after, mem, vt, e, q, c, k - 32 * vt - e, k); }
    }
  }

  lemma ByteBack(stored: seq<Byte>, after: seq<Byte>, mem: seq<Byte>, vt: nat, e: nat, q: nat, c: nat, n: nat, k: nat)
    requires |stored| == |after| == FILE && |mem| == 4096 && vt < 32 && e < 16 && e % 2 == 0 && q < 512 && c < 8
    requires n < 8 && k == 32 * vt + e + n && k % 32 < 16
    requires forall i: nat :: i < 8 ==> StoredPlace(stored, mem, vt, e, q, c, i)
    requires HoldSixAndTwo(after, 32 * vt + e, 32 * vt + e, mem, q, c)
    ensures after[k] == stored[k]
  {
    EvenLane(vt, e, n);
    var i: nat := Lane1(n);
    assert StoredPlace(stored, mem, vt, e, q, c, i);
    LoadedPlace(after, mem, 32 * vt + e, q, c, n);
  }

  lemma LoadedPlace(after: seq<Byte>, mem: seq<Byte>, v: nat, q: nat, c: nat, n: nat)
    requires |after| == FILE && |mem| == 4096 && v + 8 <= FILE && q < 512 && c < 8 && n < 8
    requires HoldSixAndTwo(after, v, v, mem, q, c)
    ensures Lane1(n) < 8 && after[v + n] == mem[Place(q, c + Lane1(n))]
  {
    EightOffsets(n);
  }

  lemma EvenLane(vt: nat, e: nat, n: nat)
    requires e < 16 && e % 2 == 0 && n < 8 && (32 * vt + e + n) % 32 < 16
    ensures Lane1(n) < 8 && Lane1((e + Lane1(n)) % 16) == e + n
  {
  }

  lemma PlacesStored(vr: array<Byte>, dmem: array<Byte>, vt: nat, e: nat, q: nat, c: nat)
    requires vr.Length == FILE && dmem.Length == 4096 && vt < 32 && q < 512 && c < 8
    requires forall i :: 0 <= i < 8 ==> ByteStored(vr, dmem, vt, e, q, c, i)
    ensures forall i: nat :: i < 8 ==> StoredPlace(vr[..], dmem[..], vt, e, q, c, i)
  {
    forall i: nat | i < 8
      ensures StoredPlace(vr[..], dmem[..], vt, e, q, c, i)
    {
      assert ByteStored(vr, dmem, vt, e, q, c, i);
    }
  }

  /** Storing eight bytes and loading them back leaves the registers unchanged, except for element 6 stored at place 3. */
  method StoreThenLoad(vr: array<Byte>, dmem: array<Byte>, vt: nat, e: nat, q: nat, c: nat)
    requires vr != dmem && vr.Length == FILE && dmem.Length == 4096 && vt < 32 && e < 16 && q < 512 && c < 8
    modifies vr, dmem
    ensures SameRegisters(old(vr[..]), vr[..])
        <==> c != 3 || e > 8 || e % 2 == 1 || (old(vr[32 * vt + e + 6]) == old(vr[32 * vt + 6]) && old(vr[32 * vt + e + 7]) == old(vr[32 * vt + 7]))
  {
    ghost var before := vr[..];
    Sdv(vr, dmem, vt, e, q, c);
    ghost var stored := vr[..];
    ghost var w := 32 * vt + if c == 3 then 0 else e;
    ghost var mem := dmem[..];
    if ByByte(e) {
      MirrorKeeps(before, vr, vt);
      PlacesStored(vr, dmem, vt, e, q, c);
    }
    Ldv(vr, dmem, vt, e, q, c);
    assert e % 2 == 0 ==> HoldSixAndTwo(vr[..], 32 * vt + e, 32 * vt + e, mem, q, c);
    if !ByByte(e) {
      WordsBack(before, vr[..], mem, vt, e, w, q, c);
    } else if e % 2 == 0 {
      BytesBack(before, stored, vr[..], mem, vt, e, q, c);
    } else {
      assert vr[..] == stored;
    }
  }

  lemma EightPlaces(v: nat, k: nat)
    requires v <= k < v + 8
    ensures k == v || k == v + 1 || k == v + 2 || k == v + 3 || k == v + 4 || k == v + 5 || k == v + 6 || k == v + 7
  {
  }

  /** SDV of element 2 at place 3: what the store leaves is not what the byte loop would leave. */
  lemma SdvPlaceThree(vr: array<Byte>, dmem: array<Byte>)
    requires vr.Length == FILE && dmem.Length == 4096 && vr[6] == 0 && vr[8] == 1
    requires SameSixAndTwo(vr, 2, 0, dmem, 0, 3)
    ensures !SameEight(vr, 2, dmem, 0, 3)
  {
    SdvExact(vr, dmem, 2, 0, 0, 3);
  }
}
