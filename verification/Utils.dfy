/**
 `copy_data` and `do_div` of utils.c.
 */
module Utils {
  import opened Basics

  /** The bytes that the word loop of `copy_data` copies; it leaves one to four for the byte loop. */
  function Words(size: int): (w: nat)
    ensures size > 0 ==> w < size
  {
    if size > 4 then (size - 1) / 4 * 4 else 0
  }

  lemma WordCount(size: int) returns (c: nat)
    ensures Words(size) == 4 * c && (size > 4 ==> size - 4 <= 4 * c < size) && (size <= 4 ==> c == 0)
  {
    c := if size > 4 then (size - 1) / 4 else 0;
  }

  /**
   Which source byte ends up at offset `x` of the destination, `gap` bytes above the source. A forward
   copy reads a byte again that it has already overwritten, unless the same word access still holds it.
   */
  function Source(x: nat, gap: int, words: nat): (r: nat)
    ensures r <= x && (r == x || 0 < gap <= x)
  {
    if gap <= 0 || x < gap || (x < words && x % 4 >= gap) then x else Source(x - gap, gap, words)
  }

  lemma SourceOfByte(n: nat, gap: int, w: nat)
    requires w <= n
    ensures Source(n, gap, w) == if 0 < gap <= n then Source(n - gap, gap, w) else n
  {
  }

  /** The first `n` bytes have been copied. */
  ghost predicate Copied<T>(was: seq<T>, now: seq<T>, start: nat, dest: nat, n: nat, w: nat) {
    && |now| == |was| && start + n <= |was| && dest + n <= |was|
    && (forall j :: dest <= j < dest + n ==> now[j] == was[start + Source(j - dest, dest - start, w)])
    && (forall j :: 0 <= j < |was| && !(dest <= j < dest + n) ==> now[j] == was[j])
  }

  /** The `i` entries from `p` are copied to `q`, all read before any is written. */
  ghost predicate Block<T>(was: seq<T>, now: seq<T>, p: nat, q: nat, i: nat) {
    && |now| == |was| && p + i <= |was| && q + i <= |was|
    && (forall j :: q <= j < q + i ==> now[j] == was[j - q + p])
    && (forall j :: 0 <= j < |was| && !(q <= j < q + i) ==> now[j] == was[j])
  }

  /** Copying the next `i` bytes at once: byte `x` of them comes from where `Source` says. */
  lemma CopiedMore<T>(was: seq<T>, now: seq<T>, next: seq<T>, start: nat, dest: nat, gap: int, n: nat, i: nat, w: nat)
    requires Copied(was, now, start, dest, n, w) && Block(now, next, start + n, dest + n, i) && gap == dest - start
    requires forall x :: n <= x < n + i ==> SourceNow(x, n, gap, w)
    ensures Copied(was, next, start, dest, n + i, w)
  {
    hide Source;
    forall j | dest + n <= j < dest + n + i
      ensures next[j] == was[start + Source(j - dest, dest - start, w)]
    {
      assert SourceNow(j - dest, n, gap, w);
    }
  }

  /** After `n` bytes, byte `x` is still where it was, or it has been overwritten by an earlier one. */
  predicate SourceNow(x: nat, n: nat, gap: int, w: nat) {
    Source(x, gap, w) == if 0 < gap <= x && x - gap < n then Source(x - gap, gap, w) else x
  }

  lemma WordNow(n: nat, c: nat, gap: int, w: nat)
    requires n == 4 * c && n + 4 <= w
    ensures forall x :: n <= x < n + 4 ==> SourceNow(x, n, gap, w)
  {
    forall x | n <= x < n + 4
      ensures SourceNow(x, n, gap, w)
    {
      assert x % 4 == x - n;
    }
  }

  lemma ByteNow(n: nat, gap: int, w: nat)
    requires w <= n
    ensures forall x :: n <= x < n + 1 ==> SourceNow(x, n, gap, w)
  {
    assert SourceNow(n, n, gap, w);
  }

  /** One word is read as a whole before it is written. */
  method CopyWord<T>(a: array<T>, p: nat, q: nat)
    requires p + 4 <= a.Length && q + 4 <= a.Length
    modifies a
    ensures Block(old(a[..]), a[..], p, q, 4)
  {
    a[q], a[q + 1], a[q + 2], a[q + 3] := a[p], a[p + 1], a[p + 2], a[p + 3];
  }

  method CopyByte<T>(a: array<T>, p: nat, q: nat)
    requires p < a.Length && q < a.Length
    modifies a
    ensures Block(old(a[..]), a[..], p, q, 1)
  {
    a[q] := a[p];
  }

  /** The forward copy: words while more than four bytes remain, then single bytes. */
  method CopyData<T>(a: array<T>, start: nat, dest: nat, size: int)
    requires start + size <= a.Length && dest + size <= a.Length
    requires start <= a.Length && dest <= a.Length
    modifies a
    ensures Copied(old(a[..]), a[..], start, dest, if size > 0 then size else 0, Words(size))
  {
    var n := 0;
    ghost var was, gap, w := a[..], dest - start, Words(size);
    ghost var c := 0;
    ghost var words := WordCount(size);
    hide Copied, Block, SourceNow, Words;
    CopiedNone(was, start, dest, w);
    while size - n > 4
      invariant (0 <= n <= size || size < n == 0) && n == 4 * c && n <= w
      invariant Copied(was, a[..], start, dest, n, w)
    {
      ghost var now := a[..];
      WordNow(n, c, gap, w);
      CopyWord(a, start + n, dest + n);
      CopiedMore(was, now, a[..], start, dest, gap, n, 4, w);
      n, c := n + 4, c + 1;
    }
    while size - n > 0
      invariant (0 <= n <= size || size < n == 0) && (w <= n || size <= 0)
      invariant Copied(was, a[..], start, dest, n, w)
    {
      ghost var now := a[..];
      ByteNow(n, gap, w);
      CopyByte(a, start + n, dest + n);
      CopiedMore(was, now, a[..], start, dest, gap, n, 1, w);
      n := n + 1;
    }
  }

  lemma CopiedNone<T>(was: seq<T>, start: nat, dest: nat, w: nat)
    requires start <= |was| && dest <= |was|
    ensures Copied(was, was, start, dest, 0, w)
  {
  }

  /** The copy is exact, whatever the contents, iff the destination does not start inside the source. */
  lemma CopyExactIff(gap: int, size: int)
    ensures (forall x: nat :: x < size ==> Source(x, gap, Words(size)) == x) <==> gap <= 0 || gap >= size
  {
    if 0 < gap < size {
      var x: nat := size - 1;
      SourceOfByte(x, gap, Words(size));
      assert x < size && Source(x, gap, Words(size)) != x;
    }
  }

  /**
   Into its own source, four bytes up or more or for at most four bytes, the forward copy repeats the first
   `gap` bytes.
   */
  lemma {:induction false} CopyRepeats(x: nat, gap: nat, size: nat)
    requires 0 < gap && x < size && (gap >= 4 || size <= 4)
    ensures Source(x, gap, Words(size)) == x % gap
    decreases x
  {
    OverwrittenFirst(x, gap, Words(size));
    hide Source, Words;
    if x >= gap {
      CopyRepeats(x - gap, gap, size);
      ModStep(x, gap);
    } else {
      DivModUnique(x, gap, 0, x);
    }
  }

  /** No word still holds a byte that the copy has overwritten. */
  lemma OverwrittenFirst(x: nat, gap: int, w: nat)
    requires 0 < gap && (gap >= 4 || w == 0)
    ensures Source(x, gap, w) == if x < gap then x else Source(x - gap, gap, w)
  {
  }

  lemma ModStep(x: nat, gap: nat)
    requires 0 < gap <= x
    ensures (x - gap) % gap == x % gap
  {
    QuotientFits(x, gap, x + 1);
    assert x - gap == (x / gap - 1) * gap + x % gap;
    DivModUnique(x - gap, gap, if x / gap > 0 then x / gap - 1 else 0, x % gap);
  }

  lemma CopiedExactly<T>(was: seq<T>, now: seq<T>, start: nat, dest: nat, size: nat)
    requires Copied(was, now, start, dest, size, Words(size)) && (dest <= start || start + size <= dest)
    ensures |now| == |was| && start + size <= |was| && dest + size <= |was|
    ensures forall j :: dest <= j < dest + size ==> now[j] == was[j - dest + start]
    ensures forall j :: 0 <= j < |was| && !(dest <= j < dest + size) ==> now[j] == was[j]
  {
    CopyExactIff(dest - start, size);
  }

  // ---------------------------------------------------------------- 64-by-32 division

  type U64 = x: int | 0 <= x < TWO32 * TWO32

  /** `q` and `r` are what is left of `n` divided by `base`. */
  predicate Divides(n: int, base: int, q: int, r: int) {
    n == q * base + r && 0 <= r < base
  }

  /** The `divl` instruction on hi:lo. With `hi >= base` the quotient does not fit and it faults. */
  function Divl(hi: U32, lo: U32, base: U32): (r: (U32, U32))
    requires hi < base
    ensures Divides(hi * TWO32 + lo, base, r.0, r.1)
  {
    DivlFits(hi, lo, base);
    var n := hi * TWO32 + lo;
    (n / base, n % base)
  }

  lemma DivlFits(hi: U32, lo: U32, base: U32)
    requires hi < base
    ensures var n := hi * TWO32 + lo;
      0 <= n / base < TWO32 && 0 <= n % base < TWO32 && Divides(n, base, n / base, n % base)
  {
    QuotientFits(hi * TWO32 + lo, base, TWO32);
  }

  lemma QuotientFits(n: nat, base: nat, limit: nat)
    requires base > 0 && n < base * limit
    ensures n / base < limit
    ensures n == (n / base) * base + n % base
  {
    if n / base >= limit {
      MulMonotone(limit, n / base, base);
    }
  }

  lemma MulMonotone(x: nat, y: nat, z: nat)
    requires x <= y
    ensures x * z <= y * z
  {
  }

  lemma DivModUnique(n: nat, base: nat, q: nat, r: nat)
    requires base > 0 && n == q * base + r && r < base
    ensures q == n / base && r == n % base
  {
    QuotientFits(n, base, n + 1);
    var d := q - n / base;
    assert d * base == n % base - r;
    if d != 0 {
      MulMonotone(1, if d < 0 then -d else d, base);
      assert false;
    }
  }

  /** `do_div`: two 32-bit divisions that together divide any 64-bit value, without a fault. */
  method DoDiv(n: U64, base: U32) returns (quotient: U64, mod: U32)
    requires base != 0
    ensures quotient == n / base && mod == n % base
  {
    var low: U32, high: U32 := n % TWO32, n / TWO32;
    var upper := high;
    if high != 0 {
      upper := high % base;
      high := high / base;
    }
    DivStep(n, base, upper, high);
    var r := Divl(upper, low, base);
    low, mod := r.0, r.1;
    assert upper * TWO32 + n % TWO32 == low * base + mod && mod < base;
    assert n == (high * TWO32 + low) * base + mod by {
      Recombine(high, base, upper, low, mod, n);
    }
    DivModUnique(n, base, high * TWO32 + low, mod);
    quotient := high * TWO32 + low;
  }

  lemma DivStep(n: U64, base: U32, upper: int, high: int)
    requires base != 0
    requires (upper, high) == if n / TWO32 != 0 then ((n / TWO32) % base, (n / TWO32) / base) else (0, 0)
    ensures 0 <= upper < base && 0 <= high < TWO32 && n / TWO32 == high * base + upper
  {
    QuotientFits(n / TWO32, base, TWO32);
  }

  lemma Recombine(high: nat, base: nat, upper: nat, low: int, mod: nat, n: nat)
    requires n / TWO32 == high * base + upper && 0 <= low
    requires upper * TWO32 + n % TWO32 == low * base + mod
    ensures n == (high * TWO32 + low) * base + mod
  {
    assert n == (n / TWO32) * TWO32 + n % TWO32;
    assert (high * TWO32 + low) * base == high * base * TWO32 + low * base;
  }

  const CYCLES_PER_TICK := 109000

  /** `get_ticks`: the time stamp over the cycles per tick, truncated to 32 bits. */
  method GetTicks(stamp: U64) returns (ticks: U32)
    ensures ticks == (stamp / CYCLES_PER_TICK) % TWO32
  {
    var q, _ := DoDiv(stamp, CYCLES_PER_TICK);
    ticks := q % TWO32;
  }
}
