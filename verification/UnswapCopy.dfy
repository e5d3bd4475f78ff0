/**
 * Copying out of byte-swapped memory into a ring: leading bytes up to a word boundary, whole words, and
 * trailing bytes, against one byte at a time. A ring of `size` bytes is a mask of size - 1 when the size
 * is a power of two.
 */
module UnswapCopy {
  import opened Words
  import opened Dmem
  import opened Bits

  /** The byte loop: byte k of the source goes to place k of the ring, k = 0 .. n - 1. */
  function Copied(dest: seq<Byte>, src: seq<Byte>, d: nat, s: nat, size: nat, n: nat): (r: seq<Byte>)
    requires 0 < size <= |dest| && |src| % 4 == 0 && s + n <= |src|
    ensures |r| == |dest|
  {
    if n == 0 then dest
    else Copied(dest, src, d, s, size, n - 1)[(d + n - 1) % size := Unswapped(src, s + n - 1)]
  }

  /** The logical byte at address a of memory made of words. */
  function Unswapped(src: seq<Byte>, a: nat): Byte
    requires |src| % 4 == 0 && a < |src|
  {
    src[Lane3(a)]
  }

  // ----- places in the ring -----

  /** Where byte k of a copy goes. */
  function Ring(d: nat, k: nat, size: nat): nat
    requires size > 0
  {
    (d + k) % size
  }

  lemma ModStep(x: nat, size: nat)
    requires size > 0
    ensures (x + 1) % size == if x % size + 1 == size then 0 else x % size + 1
  {
    var q, r := x / size, x % size;
    if r + 1 == size {
      assert x + 1 == (q + 1) * size;
      ModUnique(x + 1, size, q + 1, 0);
    } else {
      ModUnique(x + 1, size, q, r + 1);
    }
  }

  lemma ModUnique(x: nat, size: nat, q: nat, r: nat)
    requires size > 0 && x == q * size + r && r < size
    ensures x % size == r
  {
    var p := x / size;
    assert x == p * size + x % size;
    if p < q {
      MulMono(p + 1, q, size);
    } else if q < p {
      MulMono(q + 1, p, size);
    }
  }

  /** Two places less than a turn apart are different. */
  lemma {:induction false} Turn(x: nat, k: nat, size: nat)
    requires k < size
    ensures (x + k) % size == if x % size + k < size then x % size + k else x % size + k - size
  {
    if k > 0 {
      Turn(x, k - 1, size);
      ModStep(x + k - 1, size);
    }
  }

  // ----- the three phases -----

  lemma SwapDown(s: nat, i: nat)
    requires s % 4 + i < 4
    ensures Lane3(s + i) == Lane3(s) - i
  {
  }

  lemma LaneInside(length: nat, a: nat)
    requires length % 4 == 0 && a < length
    ensures 0 <= Lane3(a) < length
  {
  }

  /** Bytes before a word boundary, or after the last one: the host address runs down. */
  method CopyDown(src: seq<Byte>, srcIdx: int, dest: array<Byte>, destIdx: nat, size: nat, count: nat, ghost d0: nat, ghost s0: nat,
                  ghost before: seq<Byte>, ghost k: nat)
    returns (i: int, p: nat)
    requires 0 < size <= dest.Length && |before| == dest.Length && (s0 + k) % 4 + count <= 4
    requires srcIdx == Lane3(s0 + k) && destIdx == d0 + k && |src| % 4 == 0 && s0 + k + count <= |src|
    requires dest[..] == Copied(before, src, d0, s0, size, k)
    modifies dest
    ensures dest[..] == Copied(before, src, d0, s0, size, k + count)
    ensures i == srcIdx - count && p == destIdx + count
  {
    i, p := srcIdx, destIdx;
    for c := 0 to count
      invariant i == srcIdx - c && p == destIdx + c
      invariant dest[..] == Copied(before, src, d0, s0, size, k + c)
    {
      SwapDown(s0 + k, c);
      CopyOne(src, i, dest, p, d0, s0, size, before, k + c, k + c + 1);
      i, p := i - 1, p + 1;
    }
  }

  method CopyOne(src: seq<Byte>, host: int, dest: array<Byte>, p: nat, ghost d0: nat, ghost s0: nat, size: nat, ghost before: seq<Byte>,
                 ghost n: nat, ghost m: nat)
    requires 0 < size <= dest.Length && |before| == dest.Length && m == n + 1 && |src| % 4 == 0 && s0 + m <= |src|
    requires host == Lane3(s0 + n) && p == d0 + n && dest[..] == Copied(before, src, d0, s0, size, n)
    modifies dest
    ensures dest[..] == Copied(before, src, d0, s0, size, m)
  {
    LaneInside(|src|, s0 + n);
    NextByte(before, src, d0, s0, size, n, m);
    dest[p % size] := src[host];
  }

  lemma WordBytes(s: nat)
    requires s % 4 == 0
    ensures Lane3(s) == s + 3 && Lane3(s + 1) == s + 2 && Lane3(s + 2) == s + 1 && Lane3(s + 3) == s
  {
  }

  lemma FourPlaces(x: nat, size: nat)
    requires size >= 4
    ensures var a, b, c, d := x % size, (x + 1) % size, (x + 2) % size, (x + 3) % size;
            a != b && a != c && a != d && b != c && b != d && c != d && a < size && b < size && c < size && d < size
  {
    Turn(x, 1, size);
    Turn(x, 2, size);
    Turn(x, 3, size);
  }

  lemma Swapped(t: seq<Byte>, a: nat, b: nat, c: nat, d: nat, w: Byte, x: Byte, y: Byte, z: Byte)
    requires a < |t| && b < |t| && c < |t| && d < |t| && a != b && a != c && a != d && b != c && b != d && c != d
    ensures t[d := z][c := y][b := x][a := w] == t[a := w][b := x][c := y][d := z]
  {
  }

  lemma NextByte(dest: seq<Byte>, src: seq<Byte>, d: nat, s: nat, size: nat, n: nat, m: nat)
    requires m == n + 1 && 0 < size <= |dest| && |src| % 4 == 0 && s + m <= |src|
    ensures Copied(dest, src, d, s, size, m) == Copied(dest, src, d, s, size, n)[(d + n) % size := Unswapped(src, s + n)]
  {
  }

  /** Bytes k to k + 3 at places a to d, one after the other. */
  lemma FourBytes(before: seq<Byte>, src: seq<Byte>, d0: nat, s0: nat, size: nat, k: nat, k1: nat, k2: nat, k3: nat, k4: nat,
                  a: nat, b: nat, c: nat, d: nat, t: seq<Byte>)
    requires k1 == k + 1 && k2 == k1 + 1 && k3 == k2 + 1 && k4 == k3 + 1
    requires 0 < size <= |before| && |src| % 4 == 0 && s0 + k4 <= |src| && t == Copied(before, src, d0, s0, size, k)
    requires a == Ring(d0, k, size) && b == Ring(d0, k1, size) && c == Ring(d0, k2, size) && d == Ring(d0, k3, size)
    requires a < |before| && b < |before| && c < |before| && d < |before|
    ensures Copied(before, src, d0, s0, size, k4)
         == t[a := Unswapped(src, s0 + k)][b := Unswapped(src, s0 + k1)][c := Unswapped(src, s0 + k2)][d := Unswapped(src, s0 + k3)]
  {
    NextByte(before, src, d0, s0, size, k, k1);
    NextByte(before, src, d0, s0, size, k1, k2);
    NextByte(before, src, d0, s0, size, k2, k3);
    NextByte(before, src, d0, s0, size, k3, k4);
  }

  /** A whole word, written from its last byte to its first. */
  lemma WholeWord(before: seq<Byte>, src: seq<Byte>, d0: nat, s0: nat, size: nat, k: nat, s: nat, a: nat, b: nat, c: nat, d: nat,
                  t: seq<Byte>)
    requires 4 <= size <= |before| && s == s0 + k && s % 4 == 0 && |src| % 4 == 0 && s + 4 <= |src|
    requires t == Copied(before, src, d0, s0, size, k)
    requires a == Ring(d0, k, size) && b == Ring(d0, k + 1, size) && c == Ring(d0, k + 2, size) && d == Ring(d0, k + 3, size)
    requires a < size && b < size && c < size && d < size && a != b && a != c && a != d && b != c && b != d && c != d
    ensures t[d := src[s]][c := src[s + 1]][b := src[s + 2]][a := src[s + 3]] == Copied(before, src, d0, s0, size, k + 4)
  {
    WordBytes(s);
    FourBytes(before, src, d0, s0, size, k, k + 1, k + 2, k + 3, k + 4, a, b, c, d, t);
    Swapped(t, a, b, c, d, src[s + 3], src[s + 2], src[s + 1], src[s]);
  }

  method CopyWord(src: seq<Byte>, s: nat, dest: array<Byte>, p: nat, ghost d0: nat, ghost s0: nat, size: nat, ghost before: seq<Byte>, ghost k: nat)
    requires 4 <= size <= dest.Length && |before| == dest.Length && s == s0 + k && p == d0 + k && s % 4 == 0
    requires |src| % 4 == 0 && s + 4 <= |src| && dest[..] == Copied(before, src, d0, s0, size, k)
    modifies dest
    ensures dest[..] == Copied(before, src, d0, s0, size, k + 4)
  {
    FourPlaces(p, size);
    var a, b, c, d := p % size, (p + 1) % size, (p + 2) % size, (p + 3) % size;
    WholeWord(before, src, d0, s0, size, k, s, a, b, c, d, dest[..]);
    WriteFour(dest, d, src[s], c, src[s + 1], b, src[s + 2], a, src[s + 3]);
  }

  /** The four writes of a word, in the order of the source. */
  method WriteFour(dest: array<Byte>, a: nat, w: Byte, b: nat, x: Byte, c: nat, y: Byte, d: nat, z: Byte)
    requires a < dest.Length && b < dest.Length && c < dest.Length && d < dest.Length
    modifies dest
    ensures dest[..] == old(dest[..])[a := w][b := x][c := y][d := z]
  {
    dest[a] := w;
    dest[b] := x;
    dest[c] := y;
    dest[d] := z;
  }

  lemma BackUp(s: nat, k: nat)
    requires s % 4 != 0 && k == 4 - s % 4
    ensures Lane3(s) - k + 5 == s + k && (s + k) % 4 == 0
  {
  }

  /** The bytes up to the next word boundary, if there are that many; then the source index moves on to it. */
  method CopyLeading(src: seq<Byte>, srcIdx: nat, dest: array<Byte>, destIdx: nat, size: nat, numBytes: nat)
    returns (i: int, p: nat, rest: nat)
    requires 0 < size <= dest.Length && |src| % 4 == 0 && srcIdx + numBytes <= |src|
    modifies dest
    ensures rest <= numBytes && p == destIdx + (numBytes - rest)
    ensures rest > 0 ==> i == srcIdx + (numBytes - rest) && i % 4 == 0
    ensures dest[..] == Copied(old(dest[..]), src, destIdx, srcIdx, size, numBytes - rest)
  {
    i, p, rest := srcIdx, destIdx, numBytes;
    var leading := srcIdx % 4;
    if leading != 0 {
      leading := Min(4 - leading, numBytes);
      rest := numBytes - leading;
      i := Lane3(srcIdx);
      i, p := CopyDown(src, i, dest, destIdx, size, leading, destIdx, srcIdx, old(dest[..]), 0);
      i := i + 5;
      if rest > 0 {
        BackUp(srcIdx, leading);
      }
    }
  }

  lemma NextBoundary(x: nat)
    requires x % 4 == 0
    ensures (x + 4) % 4 == 0
  {
  }

  lemma LaneUp(x: nat)
    requires x % 4 == 0
    ensures Lane3(x) == x + 3
  {
  }

  /** The loop over whole words. */
  method CopyWords(src: seq<Byte>, srcIdx: int, dest: array<Byte>, destIdx: nat, size: nat, numDWords: nat, ghost d0: nat, ghost s0: nat,
                   ghost before: seq<Byte>, ghost k: nat, ghost end: nat)
    returns (i: int, p: nat)
    requires 4 <= size <= dest.Length && |before| == dest.Length && |src| % 4 == 0 && s0 + end <= |src|
    requires end == k + 4 * numDWords && destIdx == d0 + k && dest[..] == Copied(before, src, d0, s0, size, k)
    requires numDWords > 0 ==> srcIdx == s0 + k && srcIdx % 4 == 0
    modifies dest
    ensures i == srcIdx + 4 * numDWords && p == d0 + end && (numDWords > 0 ==> i % 4 == 0)
    ensures dest[..] == Copied(before, src, d0, s0, size, end)
  {
    i, p := srcIdx, destIdx;
    var left := numDWords;
    ghost var j := k;
    while left > 0
      invariant 0 <= left <= numDWords && j + 4 * left == end && p == d0 + j && i - srcIdx == j - k
      invariant numDWords > 0 ==> i == s0 + j && i % 4 == 0
      invariant dest[..] == Copied(before, src, d0, s0, size, j)
    {
      CopyWord(src, i, dest, p, d0, s0, size, before, j);
      NextBoundary(i);
      i, p, j, left := i + 4, p + 4, j + 4, left - 1;
    }
  }

  /** UnswapCopyWrap: any offsets, any number of bytes, any ring of at least four bytes. */
  method UnswapCopyWrap(src: seq<Byte>, srcIdx: nat, dest: array<Byte>, destIdx: nat, size: nat, numBytes: nat)
    requires 4 <= size <= dest.Length && |src| % 4 == 0 && srcIdx + numBytes <= |src|
    modifies dest
    ensures dest[..] == Copied(old(dest[..]), src, destIdx, srcIdx, size, numBytes)
  {
    var i, p, rest := CopyLeading(src, srcIdx, dest, destIdx, size, numBytes);
    var numDWords, trailing := rest / 4, rest % 4;
    ghost var end := numBytes - trailing;
    i, p := CopyWords(src, i, dest, p, size, numDWords, destIdx, srcIdx, old(dest[..]), numBytes - rest, end);
    CopyTrailing(src, i, dest, p, size, trailing, destIdx, srcIdx, old(dest[..]), end);
  }

  /** The bytes behind the last whole word. */
  method CopyTrailing(src: seq<Byte>, srcIdx: int, dest: array<Byte>, destIdx: nat, size: nat, count: nat, ghost d0: nat, ghost s0: nat,
                      ghost before: seq<Byte>, ghost k: nat)
    requires 0 < size <= dest.Length && |before| == dest.Length && |src| % 4 == 0 && s0 + k + count <= |src| && count < 4
    requires destIdx == d0 + k && (count > 0 ==> srcIdx == s0 + k && srcIdx % 4 == 0)
    requires dest[..] == Copied(before, src, d0, s0, size, k)
    modifies dest
    ensures dest[..] == Copied(before, src, d0, s0, size, k + count)
  {
    if count > 0 {
      LaneUp(srcIdx);
      var i, p := CopyDown(src, Lane3(srcIdx), dest, destIdx, size, count, d0, s0, before, k);
    }
  }

  // ----- what a copy of at most one turn does -----

  lemma PlacesDiffer(d: nat, i: nat, j: nat, size: nat)
    requires i < j < size
    ensures (d + i) % size != (d + j) % size
  {
    Turn(d, i, size);
    Turn(d, j, size);
  }

  /** With at most `size` bytes every byte arrives. */
  lemma {:induction false} Arrives(dest: seq<Byte>, src: seq<Byte>, d: nat, s: nat, size: nat, n: nat, k: nat)
    requires 0 < size <= |dest| && |src| % 4 == 0 && s + n <= |src| && k < n <= size
    ensures (d + k) % size < size && Copied(dest, src, d, s, size, n)[(d + k) % size] == Unswapped(src, s + k)
  {
    if k < n - 1 {
      Arrives(dest, src, d, s, size, n - 1, k);
      PlacesDiffer(d, k, n - 1, size);
    }
  }

  /** No other byte of the destination is touched. */
  lemma {:induction false} OthersStay(dest: seq<Byte>, src: seq<Byte>, d: nat, s: nat, size: nat, n: nat, x: nat)
    requires 0 < size <= |dest| && |src| % 4 == 0 && s + n <= |src| && x < |dest|
    requires forall k :: 0 <= k < n ==> Ring(d, k, size) != x
    ensures Copied(dest, src, d, s, size, n)[x] == dest[x]
  {
    if n > 0 {
      OthersStay(dest, src, d, s, size, n - 1, x);
      assert Ring(d, n - 1, size) != x;
    }
  }
}
