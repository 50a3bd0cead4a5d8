/** How a kmem cache sizes its slabs and lists them. */
module KmemSizing {
  import opened Arithmetic

  const PAGE: nat := 4096
  const SLAB_HEADER: nat := 48
  const KM_ALIGN: nat := 16
  const SMALL_MAX: nat := 512
  const PAGES_MAX: nat := 64

  /** `ALIGN_UP` for a power of two. */
  function AlignUp(n: nat, align: nat): (r: nat)
    requires align > 0
  {
    (n + align - 1) / align * align
  }

  /** The layout of the slabs of a cache. */
  datatype Layout = Layout(chunk: nat, align: nat, chunks: nat, size: nat, colorMax: nat)

  predicate IsSmall(l: Layout) {
    l.chunk <= SMALL_MAX
  }

  /** The room for chunks in a slab. */
  function Room(l: Layout): int {
    if IsSmall(l) then l.size - SLAB_HEADER else l.size
  }

  /** Every chunk fits whatever the color, and there are at least two. */
  predicate Fits(l: Layout) {
    l.chunk > 0 && l.align > 0 && 2 <= l.chunks && l.colorMax * l.align + l.chunk * l.chunks <= Room(l)
  }

  /** No more chunks fit, and with colors no more colors; otherwise there is one. */
  predicate Tight(l: Layout, colors: bool) {
    && l.chunk * (l.chunks + 1) > Room(l)
    && if colors || IsSmall(l) then (l.colorMax + 1) * l.align + l.chunk * l.chunks > Room(l) else l.colorMax == 0
  }

  /** Large slabs of `i` pages hold at least 16 chunks. */
  predicate Enough(chunk: nat, i: nat)
    requires chunk > 0
  {
    i * PAGE / chunk >= 16
  }

  function Waste(chunk: nat, i: nat): nat
    requires chunk > 0
  {
    i * PAGE % chunk
  }

  /** Of the slab sizes that hold at least 16 chunks, the first with the least waste. */
  ghost predicate LeastWaste(chunk: nat, best: nat)
    requires chunk > 0
  {
    && 1 <= best < PAGES_MAX && Enough(chunk, best)
    && forall i :: 1 <= i < PAGES_MAX && Enough(chunk, i) ==>
         Waste(chunk, best) < Waste(chunk, i) || (Waste(chunk, best) == Waste(chunk, i) && best <= i)
  }

  /** The loop of `kmem_cache_create`: the number of pages with the least waste, or
      0 where the source leaves it without a value. */
  method BestPages(chunk: nat) returns (best: nat)
    requires chunk > 0
    ensures best == 0 <==> chunk > (PAGES_MAX - 1) * PAGE / 16
    ensures best > 0 ==> LeastWaste(chunk, best)
  {
    best := 0;
    var minWaste := 0;
    for i := 1 to PAGES_MAX
      invariant best == 0 ==> forall k :: 1 <= k < i ==> !Enough(chunk, k)
      invariant best > 0 ==> best < i && Enough(chunk, best) && minWaste == Waste(chunk, best)
      invariant best > 0 ==> forall k :: 1 <= k < i && Enough(chunk, k) ==>
        minWaste < Waste(chunk, k) || (minWaste == Waste(chunk, k) && best <= k)
    {
      var maxChunks := i * PAGE / chunk;
      if maxChunks >= 16 {
        var waste := i * PAGE - chunk * maxChunks;
        if best == 0 || waste < minWaste {
          minWaste := waste;
          best := i;
        }
      }
    }
    EnoughIs(chunk, PAGES_MAX - 1);
    if best > 0 { EnoughIs(chunk, best); }
  }

  /** Sixteen chunks in some pages, without dividing by the chunk size. */
  lemma EnoughIs(chunk: nat, i: nat)
    requires chunk > 0
    ensures Enough(chunk, i) <==> 16 * chunk <= i * PAGE
  {
    var n := i * PAGE;
    if 16 * chunk <= n {
      Quotient(n, chunk, 16);
    } else {
      Quotient(n, chunk, 0);
      Sub(n / chunk, 15, chunk);
      if n / chunk > 15 { AtLeast(n / chunk - 15, chunk); }
    }
  }

  /** `next_ilog2`, from 1 on: the exponent of the least power of two that is `n`
      or more. */
  function NextLog(n: nat, from: nat): (k: nat)
    ensures k >= from && Pow2(k) >= n && (k == from || Pow2(k - 1) < n)
    decreases n - Pow2(from)
  {
    if Pow2(from) >= n then from else NextLog(n, from + 1)
  }

  /** `kmem_cache_create`; `qcache` is the largest size of the quantum caches this
      cache is one of, or 0. Without a quantum cache, large chunks that do not go
      into 63 pages 16 times leave the slab size undefined. */
  method Create(size: nat, align: nat, qcache: nat) returns (l: Layout, defined: bool)
    requires size > 0
    ensures l.align == (if align > KM_ALIGN then align else KM_ALIGN)
    ensures l.chunk == AlignUp(size, l.align) && l.chunk % l.align == 0 && size <= l.chunk < size + l.align
    ensures defined <==> IsSmall(l) || qcache > 0 || l.chunk <= (PAGES_MAX - 1) * PAGE / 16
    ensures defined && (IsSmall(l) || qcache == 0) ==> Fits(l) && l.size % PAGE == 0 && (IsSmall(l) ==> l.size == PAGE)
    ensures qcache > 0 && !IsSmall(l) ==> l.size == Pow2(NextLog(3 * qcache, 1)) && (Fits(l) <==> 2 * l.chunk <= l.size)
    ensures qcache > 0 && !IsSmall(l) && l.chunk <= qcache ==> Fits(l) && l.chunks >= 3
    ensures defined ==> Tight(l, qcache == 0)
    ensures defined && !IsSmall(l) && qcache == 0 ==> LeastWaste(l.chunk, l.size / PAGE)
  {
    hide AlignUp, NextLog, Pow2, LeastWaste, Tight;
    var a := if align > KM_ALIGN then align else KM_ALIGN;
    var chunk := AlignUp(size, a);
    AlignUpIs(size, a);
    if chunk <= SMALL_MAX {
      Quotient(PAGE - SLAB_HEADER, chunk, 7);
      var chunks, colors := Divide(PAGE - SLAB_HEADER, chunk, a);
      l := Layout(chunk, a, chunks, PAGE, colors);
      TightIs(l, qcache == 0);
      defined := true;
    } else if qcache > 0 {
      var slab := Pow2(NextLog(3 * qcache, 1));
      var chunks, _ := Divide(slab, chunk, a);
      l := Layout(chunk, a, chunks, slab, 0);
      TightIs(l, false);
      TwoIs(slab, chunk);
      if chunk <= qcache { Quotient(slab, chunk, 3); }
      defined := true;
    } else {
      l, defined := CreateLarge(chunk, a);
    }
  }

  /** Large chunks that are not for a quantum cache. */
  method CreateLarge(chunk: nat, align: nat) returns (l: Layout, defined: bool)
    requires chunk > SMALL_MAX && align > 0
    ensures l.chunk == chunk && l.align == align && l.size % PAGE == 0
    ensures defined <==> chunk <= (PAGES_MAX - 1) * PAGE / 16
    ensures defined ==> Fits(l) && Tight(l, true) && LeastWaste(chunk, l.size / PAGE)
  {
    hide LeastWaste, Tight;
    var best := BestPages(chunk);
    if best > 0 { EnoughIs(chunk, best); Quotient(best * PAGE, chunk, 16); }
    var chunks, colors := Divide(best * PAGE, chunk, align);
    l := Layout(chunk, align, chunks, best * PAGE, colors);
    TightIs(l, true);
    defined := best > 0;
    assert l.size / PAGE == best;
  }

  lemma TwoIs(n: nat, d: nat)
    requires d > 0
    ensures n / d >= 2 <==> 2 * d <= n
  {
    if 2 * d <= n {
      Quotient(n, d, 2);
    } else {
      Quotient(n, d, 0);
      if n / d >= 2 { AtLeast(n / d - 1, d); Sub(n / d, 1, d); }
    }
  }

  lemma TightIs(l: Layout, colors: bool)
    requires l.chunk * (l.chunks + 1) > Room(l)
    requires if colors || IsSmall(l) then (l.colorMax + 1) * l.align + l.chunk * l.chunks > Room(l) else l.colorMax == 0
    ensures Tight(l, colors)
  {
  }

  /** The chunks in some room, and the colors in what is left. */
  method Divide(room: nat, chunk: nat, align: nat) returns (chunks: nat, colors: nat)
    requires chunk > 0 && align > 0
    ensures chunks == room / chunk && colors * align + chunk * chunks <= room
    ensures chunk * (chunks + 1) > room && (colors + 1) * align + chunk * chunks > room
  {
    chunks := room / chunk;
    Quotient(room, chunk, 0);
    assert chunk * chunks == room / chunk * chunk;
    var unused := room - chunk * chunks;
    colors := unused / align;
    Quotient(unused, align, 0);
    assert colors * align == unused / align * align;
  }

  lemma AlignUpIs(n: nat, align: nat)
    requires align > 0
    ensures n <= AlignUp(n, align) < n + align && AlignUp(n, align) % align == 0
  {
    var m := n + align - 1;
    assert m == m / align * align + m % align;
    ModIs(m / align * align, m / align, 0, align);
  }

  /** A quotient is at least what fits. */
  lemma Quotient(n: nat, d: nat, k: nat)
    requires d > 0 && k * d <= n
    ensures n / d >= k && n / d * d <= n < (n / d + 1) * d
  {
    assert n == n / d * d + n % d;
    assert (n / d + 1) * d == n / d * d + d;
    Sub(k, n / d, d);
    if n / d < k { AtLeast(k - n / d, d); }
  }

  // Slab lists -----------------------------------------------------------------------

  datatype Level = Empty | Partial | Full

  /** The list a slab belongs on. */
  function LevelOf(free: nat, max: nat): Level {
    if free == max then Empty else if free == 0 then Full else Partial
  }

  /** Where `slab_alloc` puts a slab that had `prev` free chunks. */
  function AfterAlloc(level: Level, prev: nat, max: nat): Level {
    if prev == max then Partial else if prev == 1 then Full else level
  }

  /** Where `slab_free` puts a slab that now has `count` free chunks. */
  function AfterFree(level: Level, count: nat, max: nat): Level {
    if count == max then Empty else if count == 1 then Partial else level
  }

  /** The moves between the lists are right exactly when slabs hold more than one chunk. */
  lemma ListsRight(max: nat)
    requires max > 0
    ensures (forall free :: 0 < free <= max ==> AfterAlloc(LevelOf(free, max), free, max) == LevelOf(free - 1, max)) <==> max >= 2
    ensures forall free :: 0 <= free < max ==> AfterFree(LevelOf(free, max), free + 1, max) == LevelOf(free + 1, max)
  {
    if max == 1 {
      assert AfterAlloc(LevelOf(1, max), 1, max) != LevelOf(0, max);
    }
  }
}
