/**
 * The DMA engine of the interpreter: rows of 64-bit words between SP memory (two banks of 4 KiB, seen
 * as one ring) and DRAM, the rows in DRAM a stride apart. Writing SP memory out and reading it back
 * with the same registers leaves it as it was.
 */
module SpDma {
  import opened Bits

  const SP_WORDS: nat := 0x400
  const DRAM_WORDS: nat := 0x20_0000
  const DRAM_LIMIT: nat := 0x10_0000        // 8 MiB

  type SpMemory = s: seq<nat> | |s| == SP_WORDS witness seq(SP_WORDS, _ => 0)
  type Dram = s: seq<nat> | |s| == DRAM_WORDS witness seq(DRAM_WORDS, _ => 0)

  /** The DMA registers: byte addresses, and the length register with its three fields. */
  datatype Request = Request(cache: nat, dram: nat, length: nat)

  /** Bytes per row; writing the length register sets its low three bits. */
  function RowBytes(q: Request): nat { q.length % 0x1000 + 1 }

  function Rows(q: Request): nat { q.length / 0x1000 % 0x100 + 1 }

  /** Bytes between the starts of two rows in DRAM. */
  function Stride(q: Request): nat { q.length / 0x10_0000 % 0x1000 + RowBytes(q) }

  /** What the coprocessor registers hold after they were written through MTC0. */
  predicate Written(q: Request) { q.cache % 8 == 0 && q.dram % 8 == 0 && q.length % 8 == 7 }

  /** Words per row: the inner loop runs at least once and steps by eight bytes. */
  function RowWords(q: Request): nat { (RowBytes(q) + 7) / 8 }

  function SpSlot(q: Request, row: nat, j: nat): (k: nat)
    ensures k < SP_WORDS
  {
    (row * RowBytes(q) + q.cache + 8 * j) % 0x2000 / 8
  }

  function DramSlot(q: Request, row: nat, j: nat): (k: nat)
    ensures k < DRAM_WORDS
  {
    (row * Stride(q) + q.dram + 8 * j) % 0x100_0000 / 8
  }

  // ----- writing to DRAM -----

  /** The first n words of a row. */
  function WriteRow(q: Request, sp: SpMemory, dram: Dram, row: nat, n: nat): Dram {
    if n == 0 then dram
    else WriteRow(q, sp, dram, row, n - 1)[DramSlot(q, row, n - 1) := sp[SpSlot(q, row, n - 1)]]
  }

  /** The last rows down to `row`. */
  function WriteRows(q: Request, sp: SpMemory, dram: Dram, row: nat): Dram
    requires row <= Rows(q)
    decreases Rows(q) - row
  {
    if row == Rows(q) then dram else WriteRow(q, sp, WriteRows(q, sp, dram, row + 1), row, RowWords(q))
  }

  // ----- reading from DRAM -----

  /** Addresses beyond the limit read as zero. */
  function Fetched(dram: Dram, slot: nat): nat
    requires slot < DRAM_WORDS
  {
    if slot < DRAM_LIMIT then dram[slot] else 0
  }

  function ReadRow(q: Request, dram: Dram, sp: SpMemory, row: nat, n: nat): SpMemory {
    if n == 0 then sp
    else ReadRow(q, dram, sp, row, n - 1)[SpSlot(q, row, n - 1) := Fetched(dram, DramSlot(q, row, n - 1))]
  }

  function ReadRows(q: Request, dram: Dram, sp: SpMemory, row: nat): SpMemory
    requires row <= Rows(q)
    decreases Rows(q) - row
  {
    if row == Rows(q) then sp else ReadRow(q, dram, ReadRows(q, dram, sp, row + 1), row, RowWords(q))
  }

  // ----- the loops -----

  method DmaWrite(q: Request, sp: array<nat>, dram: array<nat>)
    requires sp.Length == SP_WORDS && dram.Length == DRAM_WORDS && sp != dram
    modifies dram
    ensures dram[..] == WriteRows(q, sp[..], old(dram[..]), 0)
  {
    var count := Rows(q);
    while count > 0
      invariant 0 <= count <= Rows(q) && dram[..] == WriteRows(q, sp[..], old(dram[..]), count)
    {
      count := count - 1;
      ghost var before := dram[..];
      var j := 0;
      while 8 * j < RowBytes(q)
        invariant 0 <= j <= RowWords(q) && dram[..] == WriteRow(q, sp[..], before, count, j)
      {
        dram[DramSlot(q, count, j)] := sp[SpSlot(q, count, j)];
        j := j + 1;
      }
    }
  }

  method DmaRead(q: Request, sp: array<nat>, dram: array<nat>)
    requires sp.Length == SP_WORDS && dram.Length == DRAM_WORDS && sp != dram
    modifies sp
    ensures sp[..] == ReadRows(q, dram[..], old(sp[..]), 0)
  {
    var count := Rows(q);
    while count > 0
      invariant 0 <= count <= Rows(q) && sp[..] == ReadRows(q, dram[..], old(sp[..]), count)
    {
      count := count - 1;
      ghost var before := sp[..];
      var j := 0;
      while 8 * j < RowBytes(q)
        invariant 0 <= j <= RowWords(q) && sp[..] == ReadRow(q, dram[..], before, count, j)
      {
        sp[SpSlot(q, count, j)] := Fetched(dram[..], DramSlot(q, count, j));
        j := j + 1;
      }
    }
  }

  // ----- no two words of a request share a DRAM slot -----

  predicate Inside(q: Request, row: nat, j: nat) { row < Rows(q) && j < RowWords(q) }

  /** The words of a request, counted from its DRAM address; rows do not overlap. */
  function Offset(q: Request, row: nat, j: nat): nat { row * Stride(q) / 8 + j }

  lemma OffsetBounds(q: Request, row: nat, j: nat)
    requires Inside(q, row, j)
    ensures Offset(q, row, j) < DRAM_WORDS
  {
    MulMono(row, 255, Stride(q));
    assert 255 * Stride(q) <= 255 * 8191;
  }

  /** A word of a request is its offset behind the DRAM address, modulo 16 MiB. */
  lemma SlotOffset(q: Request, row: nat, j: nat)
    requires q.dram % 8 == 0
    ensures DramSlot(q, row, j) == (Offset(q, row, j) + q.dram / 8) % DRAM_WORDS
  {
    SlotAddress(row * Stride(q), q.dram / 8, j);
  }

  lemma SlotAddress(a: nat, d: nat, j: nat)
    ensures (a + 8 * d + 8 * j) % 0x100_0000 / 8 == (a / 8 + j + d) % DRAM_WORDS
  {
    EighthOf(a % 8, a / 8 + j + d);
  }

  lemma EighthOf(r: nat, k: nat)
    requires r < 8
    ensures (r + 8 * k) % 0x100_0000 / 8 == k % DRAM_WORDS
  {
  }

  lemma RowsApart(q: Request, row: nat, other: nat)
    requires row < other && q.length % 8 == 7
    ensures Offset(q, row, RowWords(q)) <= Offset(q, other, 0)
  {
    MulMono(row + 1, other, Stride(q));
    WholeWords(q.length);
    EightApart(row * Stride(q), other * Stride(q), RowWords(q));
  }

  lemma WholeWords(length: nat)
    requires length % 8 == 7
    ensures length % 0x1000 + 1 == (length % 0x1000 + 8) / 8 * 8
  {
  }

  lemma EightApart(x: nat, y: nat, k: nat)
    requires x + 8 * k <= y
    ensures x / 8 + k <= y / 8
  {
  }

  lemma DistinctMod(x: nat, y: nat, d: nat)
    requires x < y < DRAM_WORDS
    ensures (x + d) % DRAM_WORDS != (y + d) % DRAM_WORDS
  {
  }

  /** Distinct words go to distinct slots, for every stride and wherever the request lies. */
  lemma SlotsDistinct(q: Request, row: nat, j: nat, row': nat, j': nat)
    requires Written(q) && Inside(q, row, j) && Inside(q, row', j') && (row, j) != (row', j')
    ensures DramSlot(q, row, j) != DramSlot(q, row', j')
  {
    SlotOffset(q, row, j);
    SlotOffset(q, row', j');
    OffsetsDistinct(q, row, j, row', j');
    OffsetBounds(q, row, j);
    OffsetBounds(q, row', j');
    if Offset(q, row, j) < Offset(q, row', j') {
      DistinctMod(Offset(q, row, j), Offset(q, row', j'), q.dram / 8);
    } else {
      DistinctMod(Offset(q, row', j'), Offset(q, row, j), q.dram / 8);
    }
  }

  lemma OffsetsDistinct(q: Request, row: nat, j: nat, row': nat, j': nat)
    requires Written(q) && Inside(q, row, j) && Inside(q, row', j') && (row, j) != (row', j')
    ensures Offset(q, row, j) != Offset(q, row', j')
  {
    if row < row' {
      RowsApart(q, row, row');
    } else if row' < row {
      RowsApart(q, row', row);
    }
  }

  // ----- the round trip -----

  lemma {:induction false} RowLands(q: Request, sp: SpMemory, dram: Dram, row: nat, n: nat, j: nat)
    requires Written(q) && row < Rows(q) && j < n <= RowWords(q)
    ensures WriteRow(q, sp, dram, row, n)[DramSlot(q, row, j)] == sp[SpSlot(q, row, j)]
  {
    if j < n - 1 {
      RowLands(q, sp, dram, row, n - 1, j);
      SlotsDistinct(q, row, j, row, n - 1);
    }
  }

  lemma {:induction false} RowKeeps(q: Request, sp: SpMemory, dram: Dram, row: nat, n: nat, row': nat, j: nat)
    requires Written(q) && row < Rows(q) && n <= RowWords(q) && row' != row && Inside(q, row', j)
    ensures WriteRow(q, sp, dram, row, n)[DramSlot(q, row', j)] == dram[DramSlot(q, row', j)]
  {
    if n > 0 {
      RowKeeps(q, sp, dram, row, n - 1, row', j);
      SlotsDistinct(q, row, n - 1, row', j);
    }
  }

  /** After a write, every word of the request is in its DRAM slot. */
  lemma {:induction false} RowsLand(q: Request, sp: SpMemory, dram: Dram, from: nat, row: nat, j: nat)
    requires Written(q) && Inside(q, row, j) && from <= row
    ensures WriteRows(q, sp, dram, from)[DramSlot(q, row, j)] == sp[SpSlot(q, row, j)]
    decreases Rows(q) - from
  {
    var rest := WriteRows(q, sp, dram, from + 1);
    if row == from {
      RowLands(q, sp, rest, from, RowWords(q), j);
    } else {
      RowsLand(q, sp, dram, from + 1, row, j);
      RowKeeps(q, sp, rest, from, RowWords(q), row, j);
    }
  }

  /** The last word of a row, among its first n, that is read into word k of SP memory. */
  function LastInRow(q: Request, row: nat, n: nat, k: nat): (j: int)
    ensures -1 <= j < n && (j >= 0 ==> SpSlot(q, row, j) == k)
  {
    if n == 0 then -1 else if SpSlot(q, row, n - 1) == k then n - 1 else LastInRow(q, row, n - 1, k)
  }

  /** What word k of SP memory finally gets: rows are read from the last to the first. */
  datatype Source = Untouched | From(row: nat, j: nat)

  function LastSource(q: Request, row: nat, k: nat): (r: Source)
    requires row <= Rows(q)
    ensures r.From? ==> Inside(q, r.row, r.j) && SpSlot(q, r.row, r.j) == k
    decreases Rows(q) - row
  {
    if row == Rows(q) then Untouched
    else
      var j := LastInRow(q, row, RowWords(q), k);
      if j >= 0 then From(row, j) else LastSource(q, row + 1, k)
  }

  lemma {:induction false} ReadRowAt(q: Request, dram: Dram, sp: SpMemory, row: nat, n: nat, k: nat)
    requires k < SP_WORDS
    ensures var j := LastInRow(q, row, n, k);
            ReadRow(q, dram, sp, row, n)[k] == if j >= 0 then Fetched(dram, DramSlot(q, row, j)) else sp[k]
  {
    if n > 0 {
      ReadRowAt(q, dram, sp, row, n - 1, k);
    }
  }

  lemma {:induction false} ReadRowsAt(q: Request, dram: Dram, sp: SpMemory, row: nat, k: nat)
    requires row <= Rows(q) && k < SP_WORDS
    ensures var r := LastSource(q, row, k);
            ReadRows(q, dram, sp, row)[k] == if r.From? then Fetched(dram, DramSlot(q, r.row, r.j)) else sp[k]
    decreases Rows(q) - row
  {
    if row < Rows(q) {
      ReadRowsAt(q, dram, sp, row + 1, k);
      ReadRowAt(q, dram, ReadRows(q, dram, sp, row + 1), row, RowWords(q), k);
    }
  }

  /** A word comes back if it was zero or its slot is one that can be read. */
  predicate ComesBack(q: Request, sp: SpMemory, k: nat)
    requires k < SP_WORDS
  {
    var r := LastSource(q, 0, k);
    r.From? ==> DramSlot(q, r.row, r.j) < DRAM_LIMIT || sp[k] == 0
  }

  lemma RoundTripAt(q: Request, sp: SpMemory, dram: Dram, k: nat)
    requires Written(q) && k < SP_WORDS
    ensures ReadRows(q, WriteRows(q, sp, dram, 0), sp, 0)[k] == sp[k] <==> ComesBack(q, sp, k)
  {
    var r := LastSource(q, 0, k);
    ReadRowsAt(q, WriteRows(q, sp, dram, 0), sp, 0, k);
    if r.From? {
      RowsLand(q, sp, dram, 0, r.row, r.j);
    }
  }

  /** Writing out and reading back with the same registers, exactly: words above 8 MiB come back as zero. */
  lemma RoundTripExact(q: Request, sp: SpMemory, dram: Dram)
    requires Written(q)
    ensures ReadRows(q, WriteRows(q, sp, dram, 0), sp, 0) == sp <==> forall k: nat :: k < SP_WORDS ==> ComesBack(q, sp, k)
  {
    var back := ReadRows(q, WriteRows(q, sp, dram, 0), sp, 0);
    forall k: nat | k < SP_WORDS
      ensures back[k] == sp[k] <==> ComesBack(q, sp, k)
    {
      RoundTripAt(q, sp, dram, k);
    }
    if forall k: nat :: k < SP_WORDS ==> ComesBack(q, sp, k) {
      assert forall k: nat :: k < SP_WORDS ==> back[k] == sp[k];
    }
  }

  /** All rows end below the limit; address bits above the 24 the engine uses do not matter. */
  predicate BelowLimit(q: Request) { (Rows(q) - 1) * Stride(q) + q.dram % 0x100_0000 + RowBytes(q) <= 8 * DRAM_LIMIT }

  lemma ReadableSlot(q: Request, row: nat, j: nat)
    requires Written(q) && BelowLimit(q) && Inside(q, row, j)
    ensures DramSlot(q, row, j) < DRAM_LIMIT
  {
    MulMono(row, Rows(q) - 1, Stride(q));
    WholeWords(q.length);
    PlainAddress(row * Stride(q) + 8 * j, q.dram);
  }

  lemma PlainAddress(a: nat, d: nat)
    requires a + d % 0x100_0000 + 8 <= 8 * DRAM_LIMIT
    ensures (a + d) % 0x100_0000 / 8 < DRAM_LIMIT
  {
  }

  /** Below the limit every memory comes back unchanged. */
  lemma RoundTrip(q: Request, sp: SpMemory, dram: Dram)
    requires Written(q) && BelowLimit(q)
    ensures ReadRows(q, WriteRows(q, sp, dram, 0), sp, 0) == sp
  {
    forall k: nat | k < SP_WORDS
      ensures ComesBack(q, sp, k)
    {
      var r := LastSource(q, 0, k);
      if r.From? {
        ReadableSlot(q, r.row, r.j);
      }
    }
    RoundTripExact(q, sp, dram);
  }

  /** One row of eight bytes at 8 MiB: a word that is not zero does not come back. */
  lemma WordAtLimit(sp: SpMemory, dram: Dram)
    requires sp[0] != 0
    ensures var q := Request(0, 8 * DRAM_LIMIT, 7);
            Written(q) && ReadRows(q, WriteRows(q, sp, dram, 0), sp, 0) != sp
  {
    var q := Request(0, 8 * DRAM_LIMIT, 7);
    assert SpSlot(q, 0, 0) == 0 && DramSlot(q, 0, 0) == DRAM_LIMIT;
    assert LastInRow(q, 0, 1, 0) == 0;
    assert LastSource(q, 0, 0) == From(0, 0);
    assert !ComesBack(q, sp, 0);
    RoundTripExact(q, sp, dram);
  }

  // ----- the transfer in numbers -----

  /** `rows` rows of `bytes` bytes, `skip` bytes between them in DRAM. */
  predicate Describes(q: Request, bytes: nat, rows: nat, skip: nat) {
    && 8 <= bytes <= 4096 && bytes % 8 == 0 && 1 <= rows <= 256 && skip < 4096
    && q.length == skip * 0x10_0000 + (rows - 1) * 0x1000 + bytes - 1
    && q.cache % 8 == 0 && q.dram % 8 == 0
  }

  /** The DRAM word of word j of row r. */
  function DramWord(q: Request, bytes: nat, skip: nat, r: nat, j: nat): nat { (q.dram + r * (bytes + skip) + 8 * j) % 0x100_0000 / 8 }

  /** The word of SP memory it is exchanged with. */
  function SpWord(q: Request, bytes: nat, r: nat, j: nat): nat { (q.cache + r * bytes + 8 * j) % 0x2000 / 8 }

  lemma Fields(q: Request, bytes: nat, rows: nat, skip: nat)
    requires Describes(q, bytes, rows, skip)
    ensures RowBytes(q) == bytes && Rows(q) == rows && Stride(q) == bytes + skip && RowWords(q) == bytes / 8 && Written(q)
  {
    DivMod(q.length, 0x1000, skip * 0x100 + rows - 1, bytes - 1);
    DivMod(skip * 0x100 + rows - 1, 0x100, skip, rows - 1);
    DivMod(q.length, 0x10_0000, skip, (rows - 1) * 0x1000 + bytes - 1);
    DivMod(bytes - 1, 8, bytes / 8 - 1, 7);
    LowThree(q.length, bytes - 1);
  }

  lemma DivMod(x: nat, d: nat, q: nat, r: nat)
    requires d > 0 && r < d && x == q * d + r
    ensures x / d == q && x % d == r
  {
    DivBetween(x, d, q);
  }

  lemma LowThree(length: nat, low: nat)
    requires length % 0x1000 == low
    ensures length % 8 == low % 8
  {
    assert length == 8 * (0x200 * (length / 0x1000)) + low;
    EightMultiple(low, 0x200 * (length / 0x1000));
  }

  lemma EightMultiple(x: nat, k: nat)
    ensures (8 * k + x) % 8 == x % 8
  {
  }

  lemma SlotsInNumbers(q: Request, bytes: nat, rows: nat, skip: nat, r: nat, j: nat)
    requires Describes(q, bytes, rows, skip)
    ensures DramSlot(q, r, j) == DramWord(q, bytes, skip, r, j) && SpSlot(q, r, j) == SpWord(q, bytes, r, j)
  {
    Fields(q, bytes, rows, skip);
  }

  /** Every word of every row is written to its place in DRAM. */
  lemma WritesInNumbers(q: Request, bytes: nat, rows: nat, skip: nat, sp: SpMemory, dram: Dram, r: nat, j: nat)
    requires Describes(q, bytes, rows, skip) && r < rows && 8 * j < bytes
    ensures DramWord(q, bytes, skip, r, j) < DRAM_WORDS && SpWord(q, bytes, r, j) < SP_WORDS
    ensures WriteRows(q, sp, dram, 0)[DramWord(q, bytes, skip, r, j)] == sp[SpWord(q, bytes, r, j)]
  {
    Fields(q, bytes, rows, skip);
    SlotsInNumbers(q, bytes, rows, skip, r, j);
    RowsLand(q, sp, dram, 0, r, j);
  }

  lemma {:induction false} RowElse(q: Request, sp: SpMemory, dram: Dram, row: nat, n: nat, x: nat)
    requires x < DRAM_WORDS && forall j: nat :: j < n ==> DramSlot(q, row, j) != x
    ensures WriteRow(q, sp, dram, row, n)[x] == dram[x]
  {
    if n > 0 {
      RowElse(q, sp, dram, row, n - 1, x);
    }
  }

  lemma {:induction false} RowsElse(q: Request, sp: SpMemory, dram: Dram, from: nat, x: nat)
    requires from <= Rows(q) && x < DRAM_WORDS
    requires forall row: nat, j: nat :: Inside(q, row, j) ==> DramSlot(q, row, j) != x
    ensures WriteRows(q, sp, dram, from)[x] == dram[x]
    decreases Rows(q) - from
  {
    if from < Rows(q) {
      RowsElse(q, sp, dram, from + 1, x);
      assert forall j: nat :: j < RowWords(q) ==> Inside(q, from, j);
      RowElse(q, sp, WriteRows(q, sp, dram, from + 1), from, RowWords(q), x);
    }
  }

  /** No other word of DRAM is changed. */
  lemma WritesNothingElse(q: Request, bytes: nat, rows: nat, skip: nat, sp: SpMemory, dram: Dram, x: nat)
    requires Describes(q, bytes, rows, skip) && x < DRAM_WORDS
    requires forall r: nat, j: nat :: r < rows && 8 * j < bytes ==> DramWord(q, bytes, skip, r, j) != x
    ensures WriteRows(q, sp, dram, 0)[x] == dram[x]
  {
    Fields(q, bytes, rows, skip);
    forall row: nat, j: nat | Inside(q, row, j)
      ensures DramSlot(q, row, j) != x
    {
      SlotsInNumbers(q, bytes, rows, skip, row, j);
    }
    RowsElse(q, sp, dram, 0, x);
  }

  /** A row never meets itself in SP memory. */
  lemma SpRowDistinct(q: Request, row: nat, i: nat, j: nat)
    requires i < j < 512 && q.cache % 8 == 0 && q.length % 8 == 7
    ensures SpSlot(q, row, i) != SpSlot(q, row, j)
  {
    WholeWords(q.length);
    RingApart(row * RowBytes(q) + q.cache, i, j);
  }

  lemma RingApart(a: nat, i: nat, j: nat)
    requires i < j < 512
    ensures (a + 8 * i) % 0x2000 / 8 != (a + 8 * j) % 0x2000 / 8
  {
    RingPlace(a % 8, a / 8 + i);
    RingPlace(a % 8, a / 8 + j);
    RingDistinct(a / 8 + i, j - i);
  }

  lemma RingPlace(r: nat, k: nat)
    requires r < 8
    ensures (r + 8 * k) % 0x2000 / 8 == k % 0x400
  {
  }

  lemma RingDistinct(x: nat, d: nat)
    requires 0 < d < 512
    ensures x % 0x400 != (x + d) % 0x400
  {
  }

  lemma {:induction false} LastInRowIs(q: Request, row: nat, n: nat, j: nat, k: nat)
    requires j < n <= 512 && q.cache % 8 == 0 && q.length % 8 == 7 && SpSlot(q, row, j) == k
    ensures LastInRow(q, row, n, k) == j
  {
    if j < n - 1 {
      SpRowDistinct(q, row, j, n - 1);
      LastInRowIs(q, row, n - 1, j, k);
    }
  }

  lemma {:induction false} LastInRowNone(q: Request, row: nat, n: nat, k: nat)
    requires forall j: nat :: j < n ==> SpSlot(q, row, j) != k
    ensures LastInRow(q, row, n, k) == -1
  {
    if n > 0 {
      LastInRowNone(q, row, n - 1, k);
    }
  }

  lemma {:induction false} LastSourceIs(q: Request, from: nat, row: nat, j: nat, k: nat)
    requires Written(q) && from <= row < Rows(q) && j < RowWords(q) && SpSlot(q, row, j) == k
    requires forall r: nat, i: nat :: r < row && i < RowWords(q) ==> SpSlot(q, r, i) != k
    ensures LastSource(q, from, k) == From(row, j)
    decreases row - from
  {
    if from < row {
      LastInRowNone(q, from, RowWords(q), k);
      LastSourceIs(q, from + 1, row, j, k);
    } else {
      LastInRowIs(q, row, RowWords(q), j, k);
    }
  }

  lemma {:induction false} NoSource(q: Request, from: nat, k: nat)
    requires from <= Rows(q) && forall r: nat, i: nat :: Inside(q, r, i) ==> SpSlot(q, r, i) != k
    ensures LastSource(q, from, k) == Untouched
    decreases Rows(q) - from
  {
    if from < Rows(q) {
      assert forall j: nat :: j < RowWords(q) ==> Inside(q, from, j);
      LastInRowNone(q, from, RowWords(q), k);
      NoSource(q, from + 1, k);
    }
  }

  /** A word of SP memory gets the DRAM word of the lowest row that covers it, or zero from 8 MiB on. */
  lemma ReadsInNumbers(q: Request, bytes: nat, rows: nat, skip: nat, sp: SpMemory, dram: Dram, r: nat, j: nat)
    requires Describes(q, bytes, rows, skip) && r < rows && 8 * j < bytes
    requires forall r': nat, j': nat :: r' < r && 8 * j' < bytes ==> SpWord(q, bytes, r', j') != SpWord(q, bytes, r, j)
    ensures DramWord(q, bytes, skip, r, j) < DRAM_WORDS && SpWord(q, bytes, r, j) < SP_WORDS
    ensures ReadRows(q, dram, sp, 0)[SpWord(q, bytes, r, j)]
         == if 8 * DramWord(q, bytes, skip, r, j) < 0x80_0000 then dram[DramWord(q, bytes, skip, r, j)] else 0
  {
    Fields(q, bytes, rows, skip);
    var k := SpSlot(q, r, j);
    SlotsInNumbers(q, bytes, rows, skip, r, j);
    forall r': nat, j': nat | r' < r && j' < RowWords(q)
      ensures SpSlot(q, r', j') != k
    {
      SlotsInNumbers(q, bytes, rows, skip, r', j');
      assert SpWord(q, bytes, r', j') != SpWord(q, bytes, r, j);
    }
    LastSourceIs(q, 0, r, j, k);
    ReadRowsAt(q, dram, sp, 0, k);
  }

  /** A word that no row covers stays. */
  lemma ReadsNothingElse(q: Request, bytes: nat, rows: nat, skip: nat, sp: SpMemory, dram: Dram, k: nat)
    requires Describes(q, bytes, rows, skip) && k < SP_WORDS
    requires forall r: nat, j: nat :: r < rows && 8 * j < bytes ==> SpWord(q, bytes, r, j) != k
    ensures ReadRows(q, dram, sp, 0)[k] == sp[k]
  {
    Fields(q, bytes, rows, skip);
    forall r: nat, j: nat | Inside(q, r, j)
      ensures SpSlot(q, r, j) != k
    {
      SlotsInNumbers(q, bytes, rows, skip, r, j);
    }
    NoSource(q, 0, k);
    ReadRowsAt(q, dram, sp, 0, k);
  }
}
