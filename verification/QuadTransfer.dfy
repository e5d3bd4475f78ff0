/**
 * Quadword and transposed vector transfers. These instructions move halfwords at even addresses, so
 * memory is seen as halfwords: logical halfword s of a 16-byte block is host halfword s ^ 1 of it, and
 * a vector register is eight halfwords in order, with room for eight more that a load may spill into.
 */
module QuadTransfer {

  type Half = x: int | -0x8000 <= x < 0x8000

  const LANES: nat := 512       // 32 registers of eight halfwords, each with room for eight more behind it
  const HALVES: nat := 2048

  /** The host halfword of logical halfword s of block g. */
  function Place(g: nat, s: nat): (p: nat)
    requires g < 256 && s < 8
    ensures p < HALVES
  {
    8 * g + (if s == 0 then 1 else if s == 1 then 0 else if s == 2 then 3 else if s == 3 then 2
             else if s == 4 then 5 else if s == 5 then 4 else if s == 6 then 7 else 6)
  }

  /** n registers halves from v on are those of block g from halfword s on. */
  ghost predicate Same(vr: array<Half>, v: nat, mem: array<Half>, g: nat, s: nat, n: nat)
    requires vr.Length == LANES && mem.Length == HALVES && v + n <= LANES && g < 256 && s + n <= 8
    reads vr, mem
  {
    forall j :: v <= j < v + n ==> vr[j] == mem[Place(g, s + j - v)]
  }

  // ----- LQV -----

  method Lqv0(vr: array<Half>, mem: array<Half>, v: nat, g: nat)
    requires vr != mem && vr.Length == LANES && mem.Length == HALVES && v + 8 <= LANES && g < 256
    modifies vr
    ensures Same(vr, v, mem, g, 0, 8)
    ensures forall k :: 0 <= k < LANES && (k < v || v + 8 <= k) ==> vr[k] == old(vr[k])
  {
    var addr := 8 * g;
    vr[v + 0] := mem[addr + 1];
    vr[v + 1] := mem[addr + 0];
    vr[v + 2] := mem[addr + 3];
    vr[v + 3] := mem[addr + 2];
    vr[v + 4] := mem[addr + 5];
    vr[v + 5] := mem[addr + 4];
    vr[v + 6] := mem[addr + 7];
    vr[v + 7] := mem[addr + 6];
  }

  method Lqv1(vr: array<Half>, mem: array<Half>, v: nat, g: nat)
    requires vr != mem && vr.Length == LANES && mem.Length == HALVES && v + 7 <= LANES && g < 256
    modifies vr
    ensures Same(vr, v, mem, g, 1, 7)
    ensures forall k :: 0 <= k < LANES && (k < v || v + 7 <= k) ==> vr[k] == old(vr[k])
  {
    var addr := 8 * g;
    vr[v + 0] := mem[addr + 0];
    vr[v + 1] := mem[addr + 3];
    vr[v + 2] := mem[addr + 2];
    vr[v + 3] := mem[addr + 5];
    vr[v + 4] := mem[addr + 4];
    vr[v + 5] := mem[addr + 7];
    vr[v + 6] := mem[addr + 6];
  }

  method Lqv2(vr: array<Half>, mem: array<Half>, v: nat, g: nat)
    requires vr != mem && vr.Length == LANES && mem.Length == HALVES && v + 6 <= LANES && g < 256
    modifies vr
    ensures Same(vr, v, mem, g, 2, 6)
    ensures forall k :: 0 <= k < LANES && (k < v || v + 6 <= k) ==> vr[k] == old(vr[k])
  {
    var addr := 8 * g;
    vr[v + 0] := mem[addr + 3];
    vr[v + 1] := mem[addr + 2];
    vr[v + 2] := mem[addr + 5];
    vr[v + 3] := mem[addr + 4];
    vr[v + 4] := mem[addr + 7];
    vr[v + 5] := mem[addr + 6];
  }

  method Lqv3(vr: array<Half>, mem: array<Half>, v: nat, g: nat)
    requires vr != mem && vr.Length == LANES && mem.Length == HALVES && v + 5 <= LANES && g < 256
    modifies vr
    ensures Same(vr, v, mem, g, 3, 5)
    ensures forall k :: 0 <= k < LANES && (k < v || v + 5 <= k) ==> vr[k] == old(vr[k])
  {
    var addr := 8 * g;
    vr[v + 0] := mem[addr + 2];
    vr[v + 1] := mem[addr + 5];
    vr[v + 2] := mem[addr + 4];
    vr[v + 3] := mem[addr + 7];
    vr[v + 4] := mem[addr + 6];
  }

  method Lqv4(vr: array<Half>, mem: array<Half>, v: nat, g: nat)
    requires vr != mem && vr.Length == LANES && mem.Length == HALVES && v + 4 <= LANES && g < 256
    modifies vr
    ensures Same(vr, v, mem, g, 4, 4)
    ensures forall k :: 0 <= k < LANES && (k < v || v + 4 <= k) ==> vr[k] == old(vr[k])
  {
    var addr := 8 * g;
    vr[v + 0] := mem[addr + 5];
    vr[v + 1] := mem[addr + 4];
    vr[v + 2] := mem[addr + 7];
    vr[v + 3] := mem[addr + 6];
  }

  method Lqv5(vr: array<Half>, mem: array<Half>, v: nat, g: nat)
    requires vr != mem && vr.Length == LANES && mem.Length == HALVES && v + 3 <= LANES && g < 256
    modifies vr
    ensures Same(vr, v, mem, g, 5, 3)
    ensures forall k :: 0 <= k < LANES && (k < v || v + 3 <= k) ==> vr[k] == old(vr[k])
  {
    var addr := 8 * g;
    vr[v + 0] := mem[addr + 4];
    vr[v + 1] := mem[addr + 7];
    vr[v + 2] := mem[addr + 6];
  }

  method Lqv6(vr: array<Half>, mem: array<Half>, v: nat, g: nat)
    requires vr != mem && vr.Length == LANES && mem.Length == HALVES && v + 2 <= LANES && g < 256
    modifies vr
    ensures Same(vr, v, mem, g, 6, 2)
    ensures forall k :: 0 <= k < LANES && (k < v || v + 2 <= k) ==> vr[k] == old(vr[k])
  {
    var addr := 8 * g;
    vr[v + 0] := mem[addr + 7];
    vr[v + 1] := mem[addr + 6];
  }

  method Lqv7(vr: array<Half>, mem: array<Half>, v: nat, g: nat)
    requires vr != mem && vr.Length == LANES && mem.Length == HALVES && v + 1 <= LANES && g < 256
    modifies vr
    ensures Same(vr, v, mem, g, 7, 1)
    ensures forall k :: 0 <= k < LANES && (k < v || v + 1 <= k) ==> vr[k] == old(vr[k])
  {
    var addr := 8 * g;
    vr[v + 0] := mem[addr + 6];
  }

  /** The switch on the place in the block. */
  method LqvSwitch(vr: array<Half>, mem: array<Half>, v: nat, g: nat, c: nat)
    requires vr != mem && vr.Length == LANES && mem.Length == HALVES && g < 256 && c < 8 && v + 8 - c <= LANES
    modifies vr
    ensures Same(vr, v, mem, g, c, 8 - c)
    ensures forall k :: 0 <= k < LANES && (k < v || v + 8 - c <= k) ==> vr[k] == old(vr[k])
  {
    match c
    case 0 => Lqv0(vr, mem, v, g);
    case 1 => Lqv1(vr, mem, v, g);
    case 2 => Lqv2(vr, mem, v, g);
    case 3 => Lqv3(vr, mem, v, g);
    case 4 => Lqv4(vr, mem, v, g);
    case 5 => Lqv5(vr, mem, v, g);
    case 6 => Lqv6(vr, mem, v, g);
    case _ => Lqv7(vr, mem, v, g);
  }

  /** Odd elements and odd addresses are refused; the rest of the block from the address on is loaded. */
  method Lqv(vr: array<Half>, mem: array<Half>, vt: nat, e: nat, addr: nat)
    requires vr != mem && vr.Length == LANES && mem.Length == HALVES && vt < 32 && e < 16 && addr < 4096
    modifies vr
    ensures e % 2 == 0 && addr % 2 == 0 ==>
              Same(vr, 16 * vt + e / 2, mem, addr / 16, addr % 16 / 2, 8 - addr % 16 / 2)
    ensures e % 2 == 1 || addr % 2 == 1 ==> vr[..] == old(vr[..])
    ensures forall k :: 0 <= k < LANES && (k < 16 * vt + e / 2 || 16 * vt + e / 2 + 8 - addr % 16 / 2 <= k) ==> vr[k] == old(vr[k])
  {
    if e % 2 == 1 || addr % 2 == 1 { return; }
    LqvSwitch(vr, mem, 16 * vt + e / 2, addr / 16, addr % 16 / 2);
  }

  // ----- LRV -----

  method Lrv1(vr: array<Half>, mem: array<Half>, v: nat, g: nat)
    requires vr != mem && vr.Length == LANES && mem.Length == HALVES && v + 8 <= LANES && g < 256
    modifies vr
    ensures Same(vr, v + 7, mem, g, 0, 1)
    ensures forall k :: 0 <= k < LANES && (k < v + 7 || v + 8 <= k) ==> vr[k] == old(vr[k])
  {
    var addr := 8 * g;
    vr[v + 7] := mem[addr + 1];
  }

  method Lrv2(vr: array<Half>, mem: array<Half>, v: nat, g: nat)
    requires vr != mem && vr.Length == LANES && mem.Length == HALVES && v + 8 <= LANES && g < 256
    modifies vr
    ensures Same(vr, v + 6, mem, g, 0, 2)
    ensures forall k :: 0 <= k < LANES && (k < v + 6 || v + 8 <= k) ==> vr[k] == old(vr[k])
  {
    var addr := 8 * g;
    vr[v + 6] := mem[addr + 1];
    vr[v + 7] := mem[addr + 0];
  }

  method Lrv3(vr: array<Half>, mem: array<Half>, v: nat, g: nat)
    requires vr != mem && vr.Length == LANES && mem.Length == HALVES && v + 8 <= LANES && g < 256
    modifies vr
    ensures Same(vr, v + 5, mem, g, 0, 3)
    ensures forall k :: 0 <= k < LANES && (k < v + 5 || v + 8 <= k) ==> vr[k] == old(vr[k])
  {
    var addr := 8 * g;
    vr[v + 5] := mem[addr + 1];
    vr[v + 6] := mem[addr + 0];
    vr[v + 7] := mem[addr + 3];
  }

  method Lrv4(vr: array<Half>, mem: array<Half>, v: nat, g: nat)
    requires vr != mem && vr.Length == LANES && mem.Length == HALVES && v + 8 <= LANES && g < 256
    modifies vr
    ensures Same(vr, v + 4, mem, g, 0, 4)
    ensures forall k :: 0 <= k < LANES && (k < v + 4 || v + 8 <= k) ==> vr[k] == old(vr[k])
  {
    var addr := 8 * g;
    vr[v + 4] := mem[addr + 1];
    vr[v + 5] := mem[addr + 0];
    vr[v + 6] := mem[addr + 3];
    vr[v + 7] := mem[addr + 2];
  }

  method Lrv5(vr: array<Half>, mem: array<Half>, v: nat, g: nat)
    requires vr != mem && vr.Length == LANES && mem.Length == HALVES && v + 8 <= LANES && g < 256
    modifies vr
    ensures Same(vr, v + 3, mem, g, 0, 5)
    ensures forall k :: 0 <= k < LANES && (k < v + 3 || v + 8 <= k) ==> vr[k] == old(vr[k])
  {
    var addr := 8 * g;
    vr[v + 3] := mem[addr + 1];
    vr[v + 4] := mem[addr + 0];
    vr[v + 5] := mem[addr + 3];
    vr[v + 6] := mem[addr + 2];
    vr[v + 7] := mem[addr + 5];
  }

  method Lrv6(vr: array<Half>, mem: array<Half>, v: nat, g: nat)
    requires vr != mem && vr.Length == LANES && mem.Length == HALVES && v + 8 <= LANES && g < 256
    modifies vr
    ensures Same(vr, v + 2, mem, g, 0, 6)
    ensures forall k :: 0 <= k < LANES && (k < v + 2 || v + 8 <= k) ==> vr[k] == old(vr[k])
  {
    var addr := 8 * g;
    vr[v + 2] := mem[addr + 1];
    vr[v + 3] := mem[addr + 0];
    vr[v + 4] := mem[addr + 3];
    vr[v + 5] := mem[addr + 2];
    vr[v + 6] := mem[addr + 5];
    vr[v + 7] := mem[addr + 4];
  }

  method Lrv7(vr: array<Half>, mem: array<Half>, v: nat, g: nat)
    requires vr != mem && vr.Length == LANES && mem.Length == HALVES && v + 8 <= LANES && g < 256
    modifies vr
    ensures Same(vr, v + 1, mem, g, 0, 7)
    ensures forall k :: 0 <= k < LANES && (k < v + 1 || v + 8 <= k) ==> vr[k] == old(vr[k])
  {
    var addr := 8 * g;
    vr[v + 1] := mem[addr + 1];
    vr[v + 2] := mem[addr + 0];
    vr[v + 3] := mem[addr + 3];
    vr[v + 4] := mem[addr + 2];
    vr[v + 5] := mem[addr + 5];
    vr[v + 6] := mem[addr + 4];
    vr[v + 7] := mem[addr + 7];
  }

  /** The switch on the place in the block; at its start there is nothing to load. */
  method LrvSwitch(vr: array<Half>, mem: array<Half>, v: nat, g: nat, c: nat)
    requires vr != mem && vr.Length == LANES && mem.Length == HALVES && v + 8 <= LANES && g < 256 && c < 8
    modifies vr
    ensures Same(vr, v + 8 - c, mem, g, 0, c)
    ensures forall k :: 0 <= k < LANES && (k < v + 8 - c || v + 8 <= k) ==> vr[k] == old(vr[k])
  {
    match c
    case 7 => Lrv7(vr, mem, v, g);
    case 6 => Lrv6(vr, mem, v, g);
    case 5 => Lrv5(vr, mem, v, g);
    case 4 => Lrv4(vr, mem, v, g);
    case 3 => Lrv3(vr, mem, v, g);
    case 2 => Lrv2(vr, mem, v, g);
    case 1 => Lrv1(vr, mem, v, g);
    case _ =>
  }

  /** Elements other than 0 and odd addresses are refused; the block up to the address is loaded. */
  method Lrv(vr: array<Half>, mem: array<Half>, vt: nat, e: nat, addr: nat)
    requires vr != mem && vr.Length == LANES && mem.Length == HALVES && vt < 32 && addr < 4096
    modifies vr
    ensures e == 0 && addr % 2 == 0 ==> Same(vr, 16 * vt + 8 - addr % 16 / 2, mem, addr / 16, 0, addr % 16 / 2)
    ensures e != 0 || addr % 2 == 1 ==> vr[..] == old(vr[..])
    ensures forall k :: 0 <= k < LANES && (k < 16 * vt + 8 - addr % 16 / 2 || 16 * vt + 8 <= k) ==> vr[k] == old(vr[k])
  {
    if e != 0 || addr % 2 == 1 { return; }
    LrvSwitch(vr, mem, 16 * vt, addr / 16, addr % 16 / 2);
  }

  // ----- SQV and SRV with element 0 -----

  /** Only halfwords s .. s + n - 1 of block g may differ. */
  ghost predicate Untouched(before: seq<Half>, mem: array<Half>, g: nat, s: nat, n: nat)
    requires |before| == HALVES && mem.Length == HALVES && g < 256 && s + n <= 8
    reads mem
  {
    && (forall a :: 0 <= a < HALVES && (a < 8 * g || 8 * g + 8 <= a) ==> mem[a] == before[a])
    && (forall t :: 0 <= t < 8 && (t < s || s + n <= t) ==> mem[Place(g, t)] == before[Place(g, t)])
  }

  method Sqv0(vr: array<Half>, mem: array<Half>, v: nat, g: nat)
    requires vr != mem && vr.Length == LANES && mem.Length == HALVES && v + 8 <= LANES && g < 256
    modifies mem
    ensures Same(vr, v, mem, g, 0, 8) && Untouched(old(mem[..]), mem, g, 0, 8)
  {
    var addr := 8 * g;
    mem[addr + 1] := vr[v + 0];
    mem[addr + 0] := vr[v + 1];
    mem[addr + 3] := vr[v + 2];
    mem[addr + 2] := vr[v + 3];
    mem[addr + 5] := vr[v + 4];
    mem[addr + 4] := vr[v + 5];
    mem[addr + 7] := vr[v + 6];
    mem[addr + 6] := vr[v + 7];
  }

  method Sqv1(vr: array<Half>, mem: array<Half>, v: nat, g: nat)
    requires vr != mem && vr.Length == LANES && mem.Length == HALVES && v + 8 <= LANES && g < 256
    modifies mem
    ensures Same(vr, v, mem, g, 1, 7) && Untouched(old(mem[..]), mem, g, 1, 7)
  {
    var addr := 8 * g;
    mem[addr + 0] := vr[v + 0];
    mem[addr + 3] := vr[v + 1];
    mem[addr + 2] := vr[v + 2];
    mem[addr + 5] := vr[v + 3];
    mem[addr + 4] := vr[v + 4];
    mem[addr + 7] := vr[v + 5];
    mem[addr + 6] := vr[v + 6];
  }

  method Sqv2(vr: array<Half>, mem: array<Half>, v: nat, g: nat)
    requires vr != mem && vr.Length == LANES && mem.Length == HALVES && v + 8 <= LANES && g < 256
    modifies mem
    ensures Same(vr, v, mem, g, 2, 6) && Untouched(old(mem[..]), mem, g, 2, 6)
  {
    var addr := 8 * g;
    mem[addr + 3] := vr[v + 0];
    mem[addr + 2] := vr[v + 1];
    mem[addr + 5] := vr[v + 2];
    mem[addr + 4] := vr[v + 3];
    mem[addr + 7] := vr[v + 4];
    mem[addr + 6] := vr[v + 5];
  }

  method Sqv3(vr: array<Half>, mem: array<Half>, v: nat, g: nat)
    requires vr != mem && vr.Length == LANES && mem.Length == HALVES && v + 8 <= LANES && g < 256
    modifies mem
    ensures Same(vr, v, mem, g, 3, 5) && Untouched(old(mem[..]), mem, g, 3, 5)
  {
    var addr := 8 * g;
    mem[addr + 2] := vr[v + 0];
    mem[addr + 5] := vr[v + 1];
    mem[addr + 4] := vr[v + 2];
    mem[addr + 7] := vr[v + 3];
    mem[addr + 6] := vr[v + 4];
  }

  method Srv1(vr: array<Half>, mem: array<Half>, v: nat, g: nat)
    requires vr != mem && vr.Length == LANES && mem.Length == HALVES && v + 8 <= LANES && g < 256
    modifies mem
    ensures Same(vr, v + 7, mem, g, 0, 1) && Untouched(old(mem[..]), mem, g, 0, 1)
  {
    var addr := 8 * g;
    mem[addr + 1] := vr[v + 7];
  }

  method Srv2(vr: array<Half>, mem: array<Half>, v: nat, g: nat)
    requires vr != mem && vr.Length == LANES && mem.Length == HALVES && v + 8 <= LANES && g < 256
    modifies mem
    ensures Same(vr, v + 6, mem, g, 0, 2) && Untouched(old(mem[..]), mem, g, 0, 2)
  {
    var addr := 8 * g;
    mem[addr + 1] := vr[v + 6];
    mem[addr + 0] := vr[v + 7];
  }

  method Srv3(vr: array<Half>, mem: array<Half>, v: nat, g: nat)
    requires vr != mem && vr.Length == LANES && mem.Length == HALVES && v + 8 <= LANES && g < 256
    modifies mem
    ensures Same(vr, v + 5, mem, g, 0, 3) && Untouched(old(mem[..]), mem, g, 0, 3)
  {
    var addr := 8 * g;
    mem[addr + 1] := vr[v + 5];
    mem[addr + 0] := vr[v + 6];
    mem[addr + 3] := vr[v + 7];
  }

  method Srv4(vr: array<Half>, mem: array<Half>, v: nat, g: nat)
    requires vr != mem && vr.Length == LANES && mem.Length == HALVES && v + 8 <= LANES && g < 256
    modifies mem
    ensures Same(vr, v + 4, mem, g, 0, 4) && Untouched(old(mem[..]), mem, g, 0, 4)
  {
    var addr := 8 * g;
    mem[addr + 1] := vr[v + 4];
    mem[addr + 0] := vr[v + 5];
    mem[addr + 3] := vr[v + 6];
    mem[addr + 2] := vr[v + 7];
  }

  method Srv5(vr: array<Half>, mem: array<Half>, v: nat, g: nat)
    requires vr != mem && vr.Length == LANES && mem.Length == HALVES && v + 8 <= LANES && g < 256
    modifies mem
    ensures Same(vr, v + 3, mem, g, 0, 5) && Untouched(old(mem[..]), mem, g, 0, 5)
  {
    var addr := 8 * g;
    mem[addr + 1] := vr[v + 3];
    mem[addr + 0] := vr[v + 4];
    mem[addr + 3] := vr[v + 5];
    mem[addr + 2] := vr[v + 6];
    mem[addr + 5] := vr[v + 7];
  }

  method Srv6(vr: array<Half>, mem: array<Half>, v: nat, g: nat)
    requires vr != mem && vr.Length == LANES && mem.Length == HALVES && v + 8 <= LANES && g < 256
    modifies mem
    ensures Same(vr, v + 2, mem, g, 0, 6) && Untouched(old(mem[..]), mem, g, 0, 6)
  {
    var addr := 8 * g;
    mem[addr + 1] := vr[v + 2];
    mem[addr + 0] := vr[v + 3];
    mem[addr + 3] := vr[v + 4];
    mem[addr + 2] := vr[v + 5];
    mem[addr + 5] := vr[v + 6];
    mem[addr + 4] := vr[v + 7];
  }

  method Srv7(vr: array<Half>, mem: array<Half>, v: nat, g: nat)
    requires vr != mem && vr.Length == LANES && mem.Length == HALVES && v + 8 <= LANES && g < 256
    modifies mem
    ensures Same(vr, v + 1, mem, g, 0, 7) && Untouched(old(mem[..]), mem, g, 0, 7)
  {
    var addr := 8 * g;
    mem[addr + 1] := vr[v + 1];
    mem[addr + 0] := vr[v + 2];
    mem[addr + 3] := vr[v + 3];
    mem[addr + 2] := vr[v + 4];
    mem[addr + 5] := vr[v + 5];
    mem[addr + 4] := vr[v + 6];
    mem[addr + 7] := vr[v + 7];
  }

  /** SQV with element 0 acts only at places 0, 2, 4 and 6 of a block. */
  method SqvZero(vr: array<Half>, mem: array<Half>, vt: nat, addr: nat)
    requires vr != mem && vr.Length == LANES && mem.Length == HALVES && vt < 32 && addr < 4096
    modifies mem
    ensures addr % 16 in {0, 2, 4, 6} ==>
              var c := addr % 16 / 2;
              Same(vr, 16 * vt, mem, addr / 16, c, 8 - c) && Untouched(old(mem[..]), mem, addr / 16, c, 8 - c)
    ensures addr % 16 !in {0, 2, 4, 6} ==> mem[..] == old(mem[..])
  {
    match addr % 16
    case 0 => Sqv0(vr, mem, 16 * vt, addr / 16);
    case 2 => Sqv1(vr, mem, 16 * vt, addr / 16);
    case 4 => Sqv2(vr, mem, 16 * vt, addr / 16);
    case 6 => Sqv3(vr, mem, 16 * vt, addr / 16);
    case _ =>
  }

  method SrvSwitch(vr: array<Half>, mem: array<Half>, v: nat, g: nat, c: nat)
    requires vr != mem && vr.Length == LANES && mem.Length == HALVES && v + 8 <= LANES && g < 256 && c < 8
    modifies mem
    ensures Same(vr, v + 8 - c, mem, g, 0, c) && Untouched(old(mem[..]), mem, g, 0, c)
  {
    match c
    case 7 => Srv7(vr, mem, v, g);
    case 6 => Srv6(vr, mem, v, g);
    case 5 => Srv5(vr, mem, v, g);
    case 4 => Srv4(vr, mem, v, g);
    case 3 => Srv3(vr, mem, v, g);
    case 2 => Srv2(vr, mem, v, g);
    case 1 => Srv1(vr, mem, v, g);
    case _ =>
  }

  /** Elements other than 0 and odd addresses are refused; the block up to the address is stored. */
  method Srv(vr: array<Half>, mem: array<Half>, vt: nat, e: nat, addr: nat)
    requires vr != mem && vr.Length == LANES && mem.Length == HALVES && vt < 32 && addr < 4096
    modifies mem
    ensures e == 0 && addr % 2 == 0 ==>
              var c := addr % 16 / 2;
              Same(vr, 16 * vt + 8 - c, mem, addr / 16, 0, c) && Untouched(old(mem[..]), mem, addr / 16, 0, c)
    ensures e != 0 || addr % 2 == 1 ==> mem[..] == old(mem[..])
  {
    if e != 0 || addr % 2 == 1 { return; }
    SrvSwitch(vr, mem, 16 * vt, addr / 16, addr % 16 / 2);
  }

  // ----- unaligned quadwords -----

  /** The block after g; memory wraps around. */
  function After(g: nat): (r: nat)
    requires g < 256
    ensures r < 256
  {
    if g == 255 then 0 else g + 1
  }

  /** Halfword j from place c of block g on. */
  function From(g: nat, c: nat, j: nat): (p: nat)
    requires g < 256 && c < 8 && j < 8
    ensures p < HALVES
  {
    if c + j < 8 then Place(g, c + j) else Place(After(g), c + j - 8)
  }

  lemma NextBlock(addr: nat)
    requires addr < 4096
    ensures (addr + 16) % 4096 / 16 == After(addr / 16) && (addr + 16) % 4096 % 16 == addr % 16
  {
    assert addr == 16 * (addr / 16) + addr % 16;
    if addr < 4080 {
      BlockOf(addr / 16 + 1, addr % 16);
    }
  }

  lemma BlockOf(g: nat, r: nat)
    requires g < 256 && r < 16
    ensures (16 * g + r) % 4096 == 16 * g + r && (16 * g + r) / 16 == g && (16 * g + r) % 16 == r
  {
  }

  lemma BlockAndPlace(h: nat, s: nat)
    requires h < 256 && s < 8
    ensures (16 * h + 2 * s) / 16 == h && (16 * h + 2 * s) % 16 / 2 == s && 16 * h + 2 * s < 4096
  {
  }

  /** It is the halfword at the logical address, going round at 4 KiB. */
  lemma FromIsAddress(g: nat, c: nat, j: nat, address: nat)
    requires g < 256 && c < 8 && j < 8 && address == (16 * g + 2 * c + 2 * j) % 4096
    ensures address / 16 < 256 && address % 16 / 2 < 8 && From(g, c, j) == Place(address / 16, address % 16 / 2)
  {
    if c + j < 8 {
      BlockAndPlace(g, c + j);
    } else {
      BlockAndPlace(After(g), c + j - 8);
      assert address == 16 * After(g) + 2 * (c + j - 8);
    }
  }

  /** LQV at an even address and LRV sixteen bytes on load exactly the sixteen bytes from the address on. */
  method LoadQuad(vr: array<Half>, mem: array<Half>, vt: nat, addr: nat)
    requires vr != mem && vr.Length == LANES && mem.Length == HALVES && vt < 32 && addr < 4096 && addr % 2 == 0
    modifies vr
    ensures forall j :: 0 <= j < 8 ==> vr[16 * vt + j] == mem[From(addr / 16, addr % 16 / 2, j)]
    ensures forall k :: 0 <= k < LANES && (k < 16 * vt || 16 * vt + 8 <= k) ==> vr[k] == old(vr[k])
  {
    NextBlock(addr);
    Lqv(vr, mem, vt, 0, addr);
    Lrv(vr, mem, vt, 0, (addr + 16) % 4096);
  }

  /** Lane j of register vt. */
  function Lane(vt: nat, j: nat): nat { 16 * vt + j }

  /** SQV and SRV, then LQV and LRV: the register comes back when SQV acts, otherwise its first part comes from memory. */
  method StoreThenLoadQuad(vr: array<Half>, mem: array<Half>, vt: nat, addr: nat)
    requires vr != mem && vr.Length == LANES && mem.Length == HALVES && vt < 32 && addr < 4096 && addr % 2 == 0
    modifies vr, mem
    ensures forall j :: 0 <= j < 8 ==>
              vr[Lane(vt, j)] == if addr % 16 < 8 || 8 - addr % 16 / 2 <= j then old(vr[Lane(vt, j)])
                                 else old(mem[From(addr / 16, addr % 16 / 2, j)])
    ensures forall k :: 0 <= k < LANES && (k < 16 * vt || 16 * vt + 8 <= k) ==> vr[k] == old(vr[k])
    ensures vr[..] == old(vr[..]) <==> ComesBack(old(vr[..]), old(mem[..]), vt, addr)
  {
    ghost var before, memory := vr[..], mem[..];
    StoreQuad(vr, mem, vt, addr);
    LoadQuad(vr, mem, vt, addr);
    ghost var g, c := addr / 16, addr % 16 / 2;
    forall j | 0 <= j < 8
      ensures vr[..][Lane(vt, j)] == Back(before, memory, vt, addr, j)
    {
      assert vr[16 * vt + j] == mem[From(g, c, j)];
    }
    BackExactly(before, memory, vr[..], vt, addr);
  }

  /** Halfword j after the round trip. */
  function Back(file: seq<Half>, memory: seq<Half>, vt: nat, addr: nat, j: nat): Half
    requires |file| == LANES && |memory| == HALVES && vt < 32 && addr < 4096 && j < 8
  {
    if addr % 16 < 8 || 8 - addr % 16 / 2 <= j then file[Lane(vt, j)] else memory[From(addr / 16, addr % 16 / 2, j)]
  }

  /** SQV at an even address and SRV sixteen bytes on. */
  method StoreQuad(vr: array<Half>, mem: array<Half>, vt: nat, addr: nat)
    requires vr != mem && vr.Length == LANES && mem.Length == HALVES && vt < 32 && addr < 4096 && addr % 2 == 0
    modifies mem
    ensures forall j :: 0 <= j < 8 ==> mem[From(addr / 16, addr % 16 / 2, j)] == Back(vr[..], old(mem[..]), vt, addr, j)
  {
    NextBlock(addr);
    SqvZero(vr, mem, vt, addr);
    Srv(vr, mem, vt, 0, (addr + 16) % 4096);
  }

  /** SQV acts, or memory already holds what it does not store. */
  predicate ComesBack(file: seq<Half>, memory: seq<Half>, vt: nat, addr: nat)
    requires |file| == LANES && |memory| == HALVES && vt < 32 && addr < 4096
  {
    addr % 16 < 8
    || forall j :: 0 <= j < 8 - addr % 16 / 2 ==> file[Lane(vt, j)] == memory[From(addr / 16, addr % 16 / 2, j)]
  }

  lemma BackExactly(before: seq<Half>, memory: seq<Half>, after: seq<Half>, vt: nat, addr: nat)
    requires |before| == |after| == LANES && |memory| == HALVES && vt < 32 && addr < 4096
    requires forall j :: 0 <= j < 8 ==> after[Lane(vt, j)] == Back(before, memory, vt, addr, j)
    requires forall k :: 0 <= k < LANES && (k < 16 * vt || 16 * vt + 8 <= k) ==> after[k] == before[k]
    ensures after == before <==> ComesBack(before, memory, vt, addr)
  {
    if ComesBack(before, memory, vt, addr) {
      forall k | 0 <= k < LANES
        ensures after[k] == before[k]
      {
        if 16 * vt <= k < 16 * vt + 8 { assert k == Lane(vt, k - 16 * vt); }
      }
    }
  }

  /** Register 0 holds ones, memory zeros: stored and loaded back at address 8 its first half is lost. */
  method QuadAtPlaceEight() returns (vr: array<Half>, mem: array<Half>)
    ensures vr.Length == LANES && vr[0] == 0 && vr[4] == 1
  {
    vr := new Half[LANES](_ => 1);
    mem := new Half[HALVES](_ => 0);
    StoreThenLoadQuad(vr, mem, 0, 8);
    assert vr[Lane(0, 0)] == 0 && vr[Lane(0, 4)] == 1;
  }
}
