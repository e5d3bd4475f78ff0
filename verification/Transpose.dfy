/**
 * Transposing eight vector registers through memory: STV writes diagonals of the eight registers into
 * rows, LTV reads rows back into diagonals.
 */
module Transpose {
  import opened QuadTransfer

  /** (x) & 7 for x below sixteen. */
  function Mod8(x: nat): (r: nat)
    requires x < 16
    ensures r < 8
  {
    if x < 8 then x else x - 8
  }

  /** Odd elements, registers that are not multiples of eight and unaligned addresses are refused. STV: halfword i of the row is lane i of register vt + (e/2 + i) % 8. */
  method Stv(vr: array2<Half>, mem: array<Half>, vt: nat, e: nat, addr: nat)
    requires vr.Length0 == 32 && vr.Length1 == 8 && mem.Length == HALVES && vt < 32 && e < 16 && addr < 4096
    modifies mem
    ensures e % 2 == 0 && vt % 8 == 0 && addr % 16 == 0 ==> forall i :: 0 <= i < 8 ==> mem[Place(addr / 16, i)] == vr[vt + Mod8(e / 2 + i), i]
    ensures forall a :: 0 <= a < HALVES && (e % 2 == 1 || vt % 8 != 0 || addr % 16 != 0 || a < 8 * (addr / 16) || 8 * (addr / 16) + 8 <= a) ==> mem[a] == old(mem[a])
  {
    if e % 2 == 1 || vt % 8 != 0 || addr % 16 != 0 { return; }
    var g := addr / 16;
    for i := 0 to 8
      invariant forall j :: 0 <= j < i ==> mem[Place(g, j)] == vr[vt + Mod8(e / 2 + j), j]
      invariant forall a :: 0 <= a < HALVES && (a < 8 * g || 8 * g + 8 <= a) ==> mem[a] == old(mem[a])
    {
      mem[Place(g, i)] := vr[vt + Mod8(e / 2 + i), i];
    }
  }

  /** LTV: halfword i of the row goes to lane (i - e/2) & 7 of register vt + i. */
  method Ltv(vr: array2<Half>, mem: array<Half>, vt: nat, e: nat, addr: nat)
    requires vr.Length0 == 32 && vr.Length1 == 8 && mem.Length == HALVES && vt < 32 && e < 16 && addr < 4096
    modifies vr
    ensures e % 2 == 0 && vt % 8 == 0 && addr % 16 == 0 ==> forall i :: 0 <= i < 8 ==> vr[vt + i, Mod8(i + 8 - e / 2)] == mem[Place(addr / 16, i)]
    ensures forall x, y :: 0 <= x < 32 && 0 <= y < 8 && (e % 2 == 1 || vt % 8 != 0 || addr % 16 != 0 || x < vt || vt + 8 <= x || y != Mod8(x - vt + 8 - e / 2))
              ==> vr[x, y] == old(vr[x, y])
  {
    if e % 2 == 1 || vt % 8 != 0 || addr % 16 != 0 { return; }
    var g := addr / 16;
    for i := 0 to 8
      invariant forall j :: 0 <= j < i ==> vr[vt + j, Mod8(j + 8 - e / 2)] == mem[Place(g, j)]
      invariant forall x, y :: 0 <= x < 32 && 0 <= y < 8 && (x < vt || vt + 8 <= x || y != Mod8(x - vt + 8 - e / 2)) ==> vr[x, y] == old(vr[x, y])
    {
      vr[vt + i, Mod8(i + 8 - e / 2)] := mem[Place(g, i)];
    }
  }

  /** Eight distinct rows of sixteen bytes. */
  predicate Rows(rows: seq<nat>) {
    && |rows| == 8
    && (forall r :: 0 <= r < 8 ==> rows[r] < 4096 && rows[r] % 16 == 0)
    && forall r, s :: 0 <= r < s < 8 ==> rows[r] != rows[s]
  }

  /** Row r holds the diagonal r of the registers. */
  ghost predicate HoldsDiagonal(vr: array2<Half>, mem: array<Half>, vt: nat, rows: seq<nat>, r: nat)
    requires vr.Length0 == 32 && vr.Length1 == 8 && mem.Length == HALVES && vt + 8 <= 32 && Rows(rows) && r < 8
    reads vr, mem
  {
    forall i :: 0 <= i < 8 ==> mem[Place(rows[r] / 16, i)] == vr[vt + Mod8(r + i), i]
  }

  method StoreDiagonals(vr: array2<Half>, mem: array<Half>, vt: nat, rows: seq<nat>)
    requires vr.Length0 == 32 && vr.Length1 == 8 && mem.Length == HALVES && vt % 8 == 0 && vt < 32 && Rows(rows)
    modifies mem
    ensures forall r :: 0 <= r < 8 ==> HoldsDiagonal(vr, mem, vt, rows, r)
  {
    for k := 0 to 8
      invariant forall r :: 0 <= r < k ==> HoldsDiagonal(vr, mem, vt, rows, r)
    {
      label Before:
      Stv(vr, mem, vt, 2 * k, rows[k]);
      forall r | 0 <= r < k
        ensures HoldsDiagonal(vr, mem, vt, rows, r)
      {
        assert old@Before(HoldsDiagonal(vr, mem, vt, rows, r));
        RowsApart(rows, r, k);
      }
    }
  }

  lemma RowsApart(rows: seq<nat>, r: nat, s: nat)
    requires Rows(rows) && r < s < 8
    ensures rows[r] / 16 != rows[s] / 16
  {
    assert rows[r] == 16 * (rows[r] / 16) && rows[s] == 16 * (rows[s] / 16);
  }

  /** The element that undoes diagonal k. */
  function Undo(k: nat): nat
    requires k < 8
  {
    2 * Mod8(8 - k)
  }

  method LoadDiagonals(vr: array2<Half>, mem: array<Half>, vt: nat, rows: seq<nat>)
    requires vr.Length0 == 32 && vr.Length1 == 8 && mem.Length == HALVES && vt % 8 == 0 && vt < 32 && Rows(rows)
    modifies vr
    ensures forall r, i :: 0 <= r < 8 && 0 <= i < 8 ==> vr[vt + i, Mod8(i + r)] == mem[Place(rows[r] / 16, i)]
    ensures forall x, y :: 0 <= x < 32 && 0 <= y < 8 && (x < vt || vt + 8 <= x) ==> vr[x, y] == old(vr[x, y])
  {
    for k := 0 to 8
      invariant forall r, i :: 0 <= r < k && 0 <= i < 8 ==> vr[vt + i, Mod8(i + r)] == mem[Place(rows[r] / 16, i)]
      invariant forall x, y :: 0 <= x < 32 && 0 <= y < 8 && (x < vt || vt + 8 <= x) ==> vr[x, y] == old(vr[x, y])
    {
      Ltv(vr, mem, vt, Undo(k), rows[k]);
    }
  }

  /** Eight STV and eight LTV replace an eight-by-eight block of halfwords by its transpose. */
  method TransposeBlock(vr: array2<Half>, mem: array<Half>, vt: nat, rows: seq<nat>)
    requires vr.Length0 == 32 && vr.Length1 == 8 && mem.Length == HALVES && vt % 8 == 0 && vt < 32 && Rows(rows)
    modifies vr, mem
    ensures forall x, y :: vt <= x < vt + 8 && 0 <= y < 8 ==> vr[x, y] == old(vr[vt + y, x - vt])
    ensures forall x, y :: 0 <= x < 32 && 0 <= y < 8 && (x < vt || vt + 8 <= x) ==> vr[x, y] == old(vr[x, y])
  {
    StoreDiagonals(vr, mem, vt, rows);
    label Stored:
    LoadDiagonals(vr, mem, vt, rows);
    forall x, y | vt <= x < vt + 8 && 0 <= y < 8
      ensures vr[x, y] == old(vr[vt + y, x - vt])
    {
      var i := x - vt;
      var r := Mod8(y + 8 - i);
      assert old@Stored(HoldsDiagonal(vr, mem, vt, rows, r));
      assert Mod8(i + r) == y && Mod8(r + i) == y;
      assert vr[vt + i, Mod8(i + r)] == mem[Place(rows[r] / 16, i)];
    }
  }
}
