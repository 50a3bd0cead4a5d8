/** The slab layer of a kmem cache: chunks, freelists and slab lists. */
module KmemSlab {
  import opened Arithmetic
  import opened KmemSizing
  import opened Lists
  import B = BufctlTable

  /** The slab of a run of pages: its color, its counter and its freelist. */
  datatype Slab = Slab(color: nat, freeCount: nat, free: seq<nat>)

  function ChunkAt(l: Layout, pg: nat, color: nat, i: nat): nat {
    pg + l.chunk * i + color * l.align
  }

  function ChunksBelow(l: Layout, pg: nat, color: nat, k: nat): set<nat> {
    set i | 0 <= i < k :: ChunkAt(l, pg, color, i)
  }

  function ChunkSet(l: Layout, pg: nat, color: nat): set<nat> {
    ChunksBelow(l, pg, color, l.chunks)
  }

  lemma ChunksNext(l: Layout, pg: nat, color: nat, k: nat)
    ensures ChunksBelow(l, pg, color, k + 1) == ChunksBelow(l, pg, color, k) + {ChunkAt(l, pg, color, k)}
  {
  }

  lemma {:induction false} DistinctSize(s: seq<nat>, all: set<nat>)
    requires Distinct(s) && forall x :: x in s ==> x in all
    ensures |s| <= |all|
  {
    if s != [] {
      var n := |s| - 1;
      DistinctSize(s[..n], all - {s[n]});
    }
  }

  lemma {:induction false} ChunkCount(l: Layout, pg: nat, color: nat, k: nat)
    requires k <= l.chunks
    ensures |ChunksBelow(l, pg, color, k)| <= k
  {
    if k > 0 {
      ChunkCount(l, pg, color, k - 1);
      ChunksNext(l, pg, color, k - 1);
    }
  }

  /** Chunks lie within the room of their slab and do not overlap. */
  lemma ChunksApart(l: Layout, pg: nat, color: nat, i: nat, j: nat)
    requires Fits(l) && color <= l.colorMax && i < l.chunks && j < l.chunks
    ensures pg <= ChunkAt(l, pg, color, i) && ChunkAt(l, pg, color, i) + l.chunk <= pg + Room(l)
    ensures i < j ==> ChunkAt(l, pg, color, i) + l.chunk <= ChunkAt(l, pg, color, j)
  {
    Below(l.chunk, i, l.chunks);
    Scaled(color, l.colorMax, l.align);
    if i < j { Below(l.chunk, i, j); }
  }

  lemma Scaled(x: nat, y: nat, s: nat)
    requires x <= y
    ensures 0 <= x * s <= y * s
  {
    if x < y { AtLeast(y - x, s); Sub(y, x, s); }
  }

  lemma Below(s: nat, i: nat, n: nat)
    requires i < n
    ensures 0 <= s * i && s * i + s <= s * n
  {
    var j: int, m: int := i, n;
    AtLeast(m - j, s);
    Sub(m, j, s);
  }

  /** The page of a chunk of a small slab, from `ALIGN_UP(obj + 1, PAGE_SIZE)`. */
  lemma SmallPage(l: Layout, pg: nat, color: nat, i: nat)
    requires Fits(l) && IsSmall(l) && l.size == PAGE && pg % PAGE == 0 && color <= l.colorMax && i < l.chunks
    ensures AlignUp(ChunkAt(l, pg, color, i) + 1, PAGE) == pg + PAGE
  {
    ChunksApart(l, pg, color, i, i);
  }

  /** A list without one slab. */
  function LevelIn(l: Layout, s: Slab): Level {
    LevelOf(s.freeCount, l.chunks)
  }

  /** A freelist of chunks of the slab, none of them handed out, as many as counted. */
  ghost predicate SlabOk(l: Layout, pg: nat, s: Slab, out: set<nat>) {
    && s.color <= l.colorMax && s.freeCount == |s.free| && Distinct(s.free)
    && (forall o :: o in s.free <==> o in ChunkSet(l, pg, s.color) && o !in out)
  }

  /** The slabs on a list are those of one level, each once. */
  ghost predicate Listed(l: Layout, slabs: map<nat, Slab>, list: seq<nat>, level: Level) {
    Distinct(list) && forall pg :: pg in list <==> pg in slabs && LevelIn(l, slabs[pg]) == level
  }

  ghost predicate Apart(l: Layout, slabs: map<nat, Slab>) {
    forall a, b :: a in slabs && b in slabs && a < b ==> a + l.size <= b
  }

  lemma LevelsKnown(l: Layout, pg: nat, s: Slab, out: set<nat>)
    requires SlabOk(l, pg, s, out)
    ensures s.freeCount <= l.chunks
    ensures forall o :: o in ChunkSet(l, pg, s.color) && o in out ==> s.freeCount < l.chunks
  {
    var all := ChunkSet(l, pg, s.color);
    ChunkCount(l, pg, s.color, l.chunks);
    DistinctSize(s.free, all);
    forall o | o in all && o in out ensures s.freeCount < l.chunks {
      DistinctSize(s.free, all - {o});
    }
  }

  /** Chunks of different slabs differ. */
  lemma SlabsApart(l: Layout, slabs: map<nat, Slab>, a: nat, b: nat, o: nat)
    requires Fits(l) && Room(l) <= l.size && Apart(l, slabs) && a in slabs && b in slabs
    requires slabs[a].color <= l.colorMax && slabs[b].color <= l.colorMax
    requires o in ChunkSet(l, a, slabs[a].color) && o in ChunkSet(l, b, slabs[b].color)
    ensures a == b
  {
    var i :| 0 <= i < l.chunks && o == ChunkAt(l, a, slabs[a].color, i);
    var j :| 0 <= j < l.chunks && o == ChunkAt(l, b, slabs[b].color, j);
    ChunksApart(l, a, slabs[a].color, i, i);
    ChunksApart(l, b, slabs[b].color, j, j);
  }

  /** A slab that changes may change lists, and no other does. */
  lemma ListedUpdate(l: Layout, slabs: map<nat, Slab>, list: seq<nat>, level: Level, pg: nat, s: Slab)
    requires Listed(l, slabs, list, level)
    ensures
      var was, now := pg in slabs && LevelIn(l, slabs[pg]) == level, LevelIn(l, s) == level;
      && (was == now ==> Listed(l, slabs[pg := s], list, level))
      && (was && !now ==> Listed(l, slabs[pg := s], Without(list, pg), level))
      && (!was && now ==> Listed(l, slabs[pg := s], [pg] + list, level))
  {
    WithoutOk(list, pg);
  }

  /** Giving out the first free chunk, or taking one back. */
  lemma SlabStep(l: Layout, pg: nat, s: Slab, out: set<nat>, o: nat)
    requires SlabOk(l, pg, s, out)
    ensures s.free != [] && o == s.free[0] ==> SlabOk(l, pg, Slab(s.color, s.freeCount - 1, s.free[1..]), out + {o})
    ensures o in out && o in ChunkSet(l, pg, s.color) ==> SlabOk(l, pg, Slab(s.color, s.freeCount + 1, [o] + s.free), out - {o})
    ensures o !in ChunkSet(l, pg, s.color) ==> SlabOk(l, pg, s, out + {o}) && SlabOk(l, pg, s, out - {o})
  {
    if s.free != [] && o == s.free[0] {
      var rest := s.free[1..];
      assert s.free == [o] + rest && o !in rest;
      assert Distinct(rest);
    }
  }

  ghost predicate SlabsOk(l: Layout, slabs: map<nat, Slab>, out: set<nat>) {
    Apart(l, slabs) && forall pg :: pg in slabs ==> SlabOk(l, pg, slabs[pg], out) && (IsSmall(l) ==> pg % PAGE == 0)
  }

  /** A chunk of one of the slabs. */
  ghost predicate ChunkOf(l: Layout, slabs: map<nat, Slab>, o: nat, pg: nat) {
    pg in slabs && o in ChunkSet(l, pg, slabs[pg].color)
  }

  ghost predicate OutOk(l: Layout, slabs: map<nat, Slab>, out: set<nat>) {
    forall o :: o in out ==> exists pg :: ChunkOf(l, slabs, o, pg)
  }

  /** The table leads from each large chunk in use to its slab. */
  ghost predicate ContentsOk(l: Layout, slabs: map<nat, Slab>, out: set<nat>, contents: map<nat, nat>) {
    !IsSmall(l) ==> contents.Keys == out && forall o :: o in out ==> ChunkOf(l, slabs, o, contents[o])
  }

  ghost predicate ListsOk(l: Layout, slabs: map<nat, Slab>, full: seq<nat>, partial: seq<nat>, empty: seq<nat>) {
    Listed(l, slabs, full, Full) && Listed(l, slabs, partial, Partial) && Listed(l, slabs, empty, Empty)
  }

  ghost predicate LayoutOk(l: Layout) {
    Fits(l) && Room(l) <= l.size && (IsSmall(l) ==> l.size == PAGE)
  }

  /** Pages that `vmem_alloc` may return: aligned, and apart from all slabs. */
  ghost predicate NewPages(l: Layout, slabs: map<nat, Slab>, pg: nat) {
    && (IsSmall(l) ==> pg % PAGE == 0)
    && forall s :: s in slabs ==> s + l.size <= pg || pg + l.size <= s
  }

  /** A chunk lies within the pages of its slab. */
  lemma InRoom(l: Layout, pg: nat, color: nat, o: nat)
    requires LayoutOk(l) && color <= l.colorMax && o in ChunkSet(l, pg, color)
    ensures pg <= o < pg + l.size
  {
    var i :| 0 <= i < l.chunks && o == ChunkAt(l, pg, color, i);
    ChunksApart(l, pg, color, i, i);
  }

  /** No chunk of new pages is in use. */
  lemma NewChunks(l: Layout, slabs: map<nat, Slab>, out: set<nat>, pg: nat, color: nat, o: nat)
    requires LayoutOk(l) && SlabsOk(l, slabs, out) && OutOk(l, slabs, out) && NewPages(l, slabs, pg)
    requires color <= l.colorMax && o in ChunkSet(l, pg, color)
    ensures o !in out
  {
    hide ChunkSet, LayoutOk;
    Sizes(l);
    InRoom(l, pg, color, o);
    if o in out {
      var p :| ChunkOf(l, slabs, o, p);
      assert SlabOk(l, p, slabs[p], out);
      InRoom(l, p, slabs[p].color, o);
    }
  }

  lemma Sizes(l: Layout)
    requires LayoutOk(l)
    ensures l.size > 0
  {
  }

  lemma AddSlab(l: Layout, slabs: map<nat, Slab>, out: set<nat>, contents: map<nat, nat>, pg: nat, s: Slab)
    requires LayoutOk(l) && SlabsOk(l, slabs, out) && OutOk(l, slabs, out) && ContentsOk(l, slabs, out, contents)
    requires NewPages(l, slabs, pg) && s.color <= l.colorMax && s.freeCount == |s.free| && Distinct(s.free)
    requires forall o :: o in s.free <==> o in ChunkSet(l, pg, s.color)
    ensures var r := slabs[pg := s]; SlabsOk(l, r, out) && OutOk(l, r, out) && ContentsOk(l, r, out, contents)
    ensures pg !in slabs
  {
    hide ChunkSet, LayoutOk;
    Sizes(l);
    var r := slabs[pg := s];
    forall o | o in ChunkSet(l, pg, s.color) ensures o !in out { NewChunks(l, slabs, out, pg, s.color, o); }
    forall o, p | ChunkOf(l, slabs, o, p) ensures ChunkOf(l, r, o, p) { }
  }

  /** One slab gives out or takes back a chunk. */
  lemma ChangeSlab(l: Layout, slabs: map<nat, Slab>, out: set<nat>, out': set<nat>, contents: map<nat, nat>, pg: nat, s: Slab, o: nat)
    requires LayoutOk(l) && SlabsOk(l, slabs, out) && OutOk(l, slabs, out) && ChunkOf(l, slabs, o, pg)
    requires s.color == slabs[pg].color && SlabOk(l, pg, s, out') && (out' == out + {o} || out' == out - {o})
    requires ContentsOk(l, slabs, out', contents)
    ensures var r := slabs[pg := s]; SlabsOk(l, r, out') && OutOk(l, r, out') && ContentsOk(l, r, out', contents)
  {
    hide ChunkSet, LayoutOk;
    var r := slabs[pg := s];
    forall p | p in r ensures SlabOk(l, p, r[p], out') {
      if p != pg {
        if o in ChunkSet(l, p, slabs[p].color) { OneSlab(l, slabs, out, pg, p, o); }
        SlabStep(l, p, slabs[p], out, o);
      }
    }
    forall x, p | ChunkOf(l, slabs, x, p) ensures ChunkOf(l, r, x, p) { }
    forall x | x in out' ensures exists p :: ChunkOf(l, r, x, p) {
      if x == o {
        assert ChunkOf(l, r, o, pg);
      } else {
        var p :| ChunkOf(l, slabs, x, p);
        assert ChunkOf(l, r, x, p);
      }
    }
  }

  lemma ContentsChange(l: Layout, slabs: map<nat, Slab>, out: set<nat>, contents: map<nat, nat>, pg: nat, o: nat)
    requires ContentsOk(l, slabs, out, contents) && ChunkOf(l, slabs, o, pg)
    ensures ContentsOk(l, slabs, out + {o}, contents[o := pg]) && ContentsOk(l, slabs, out - {o}, contents - {o})
    ensures !IsSmall(l) ==> contents.Keys == out
    ensures IsSmall(l) ==> ContentsOk(l, slabs, out + {o}, contents) && ContentsOk(l, slabs, out - {o}, contents)
  {
  }

  /** The first free chunk of a slab, and the slab without it. */
  lemma TakeChunk(l: Layout, slabs: map<nat, Slab>, out: set<nat>, pg: nat)
    requires SlabsOk(l, slabs, out) && pg in slabs && slabs[pg].freeCount > 0
    ensures var was := slabs[pg];
      && was.free != [] && was.freeCount <= l.chunks && was.free[0] !in out && ChunkOf(l, slabs, was.free[0], pg)
      && SlabOk(l, pg, Slab(was.color, was.freeCount - 1, was.free[1..]), out + {was.free[0]})
  {
    hide ChunkSet, Apart;
    assert SlabOk(l, pg, slabs[pg], out);
    LevelsKnown(l, pg, slabs[pg], out);
    SlabStep(l, pg, slabs[pg], out, slabs[pg].free[0]);
  }

  /** A chunk put back in its slab. */
  lemma PutChunk(l: Layout, slabs: map<nat, Slab>, out: set<nat>, pg: nat, o: nat)
    requires SlabsOk(l, slabs, out) && ChunkOf(l, slabs, o, pg) && o in out
    ensures var was := slabs[pg];
      was.freeCount < l.chunks && SlabOk(l, pg, Slab(was.color, was.freeCount + 1, [o] + was.free), out - {o})
  {
    hide ChunkSet, Apart;
    assert SlabOk(l, pg, slabs[pg], out);
    LevelsKnown(l, pg, slabs[pg], out);
    SlabStep(l, pg, slabs[pg], out, o);
  }

  lemma OneSlab(l: Layout, slabs: map<nat, Slab>, out: set<nat>, a: nat, b: nat, o: nat)
    requires LayoutOk(l) && SlabsOk(l, slabs, out) && ChunkOf(l, slabs, o, a) && ChunkOf(l, slabs, o, b)
    ensures a == b
  {
    assert SlabOk(l, a, slabs[a], out) && SlabOk(l, b, slabs[b], out);
    SlabsApart(l, slabs, a, b, o);
  }

  /** The lists after a chunk is given out. */
  lemma AllocLists(l: Layout, slabs: map<nat, Slab>, full: seq<nat>, partial: seq<nat>, empty: seq<nat>, pg: nat, s: Slab)
    requires l.chunks >= 2 && pg in slabs && s.freeCount + 1 == slabs[pg].freeCount <= l.chunks
    requires ListsOk(l, slabs, full, partial, empty)
    ensures var r, prev := slabs[pg := s], slabs[pg].freeCount;
      if prev == l.chunks then ListsOk(l, r, full, [pg] + partial, Without(empty, pg))
      else if prev == 1 then ListsOk(l, r, [pg] + full, Without(partial, pg), empty)
      else ListsOk(l, r, full, partial, empty)
  {
    hide Listed;
    ListedUpdate(l, slabs, empty, Empty, pg, s);
    ListedUpdate(l, slabs, partial, Partial, pg, s);
    ListedUpdate(l, slabs, full, Full, pg, s);
  }

  /** The lists after a chunk is taken back. */
  lemma FreeLists(l: Layout, slabs: map<nat, Slab>, full: seq<nat>, partial: seq<nat>, empty: seq<nat>, pg: nat, s: Slab)
    requires l.chunks >= 2 && pg in slabs && s.freeCount == slabs[pg].freeCount + 1 <= l.chunks
    requires ListsOk(l, slabs, full, partial, empty)
    ensures var r, count := slabs[pg := s], s.freeCount;
      if count == l.chunks then ListsOk(l, r, full, Without(partial, pg), [pg] + empty)
      else if count == 1 then ListsOk(l, r, Without(full, pg), [pg] + partial, empty)
      else ListsOk(l, r, full, partial, empty)
  {
    hide Listed;
    ListedUpdate(l, slabs, empty, Empty, pg, s);
    ListedUpdate(l, slabs, partial, Partial, pg, s);
    ListedUpdate(l, slabs, full, Full, pg, s);
  }

  class SlabLayer {
    const l: Layout
    /** Addresses of large chunks in use. */
    const table: B.Table
    var colorSeq: nat
    var slabs: map<nat, Slab>
    var full: seq<nat>
    var partial: seq<nat>
    var empty: seq<nat>
    /** The chunks in use. */
    ghost var out: set<nat>

    ghost predicate Valid()
      reads this, table, table.buckets
    {
      && LayoutOk(l) && colorSeq <= l.colorMax && table.Valid()
      && SlabsOk(l, slabs, out) && OutOk(l, slabs, out) && ContentsOk(l, slabs, out, table.contents)
      && ListsOk(l, slabs, full, partial, empty)
    }

    constructor (l: Layout, hash: nat -> nat)
      requires LayoutOk(l)
      ensures Valid() && out == {} && this.l == l && fresh(table) && fresh(table.buckets)
    {
      this.l := l;
      table := new B.Table(hash);
      colorSeq := 0;
      slabs := map[];
      full, partial, empty := [], [], [];
      out := {};
    }

    /** `o` is the first free chunk of slab `pg`. */
    ghost predicate FirstFree(pg: nat, o: nat)
      reads this
    {
      pg in slabs && slabs[pg].free != [] && slabs[pg].free[0] == o
    }

    /** `next_color` */
    method NextColor() returns (color: nat)
      requires colorSeq <= l.colorMax
      modifies this`colorSeq
      ensures color <= l.colorMax && colorSeq <= l.colorMax
      ensures color == old(colorSeq) && colorSeq == if color == l.colorMax then 0 else color + 1
    {
      color := colorSeq;
      colorSeq := colorSeq + 1;
      if color == l.colorMax { colorSeq := 0; }
    }

    /** The chunks of a new slab, the last one first. */
    method FreeList(pg: nat, color: nat) returns (free: seq<nat>)
      requires Fits(l) && color <= l.colorMax
      ensures |free| == l.chunks && Distinct(free) && forall o :: o in free <==> o in ChunkSet(l, pg, color)
      ensures forall i :: 0 <= i < l.chunks ==> free[i] == ChunkAt(l, pg, color, l.chunks - 1 - i)
    {
      hide ChunkAt;
      free := [];
      for i := 0 to l.chunks
        invariant |free| == i && Distinct(free) && forall k :: 0 <= k < i ==> free[k] == ChunkAt(l, pg, color, i - 1 - k)
        invariant forall o :: o in free <==> o in ChunksBelow(l, pg, color, i)
      {
        ChunksNext(l, pg, color, i);
        forall k | 0 <= k < i ensures ChunkAt(l, pg, color, k) != ChunkAt(l, pg, color, i) {
          ChunksApart(l, pg, color, k, i);
        }
        free := [ChunkAt(l, pg, color, i)] + free;
      }
    }

    /** `create_slab`: a slab with all its chunks free, at the head of the empty ones. */
    method CreateSlab(pg: nat)
      requires Valid() && NewPages(l, slabs, pg)
      modifies this`colorSeq, this`slabs, this`empty
      ensures Valid() && slabs.Keys == old(slabs.Keys) + {pg} && empty == [pg] + old(empty)
      ensures FirstFree(pg, ChunkAt(l, pg, old(colorSeq), l.chunks - 1))
      ensures colorSeq == if old(colorSeq) == l.colorMax then 0 else old(colorSeq) + 1
      ensures pg !in old(slabs) && forall s :: s in old(slabs) ==> slabs[s] == old(slabs)[s]
    {
      hide ChunkSet, Listed, SlabsOk, OutOk, ContentsOk, NewPages;
      LayoutFits(l);
      var color := NextColor();
      var free := FreeList(pg, color);
      var s := Slab(color, l.chunks, free);
      AddSlab(l, slabs, out, table.contents, pg, s);
      ListedUpdate(l, slabs, empty, Empty, pg, s);
      ListedUpdate(l, slabs, partial, Partial, pg, s);
      ListedUpdate(l, slabs, full, Full, pg, s);
      slabs := slabs[pg := s];
      empty := [pg] + empty;
    }

    /** The list moves of `slab_alloc`, for slab `pg` that becomes `s`. */
    method MoveLists(pg: nat, s: Slab)
      requires l.chunks >= 2 && pg in slabs && s.freeCount + 1 == slabs[pg].freeCount <= l.chunks
      requires ListsOk(l, slabs, full, partial, empty)
      modifies this`full, this`partial, this`empty
      ensures ListsOk(l, slabs[pg := s], full, partial, empty)
    {
      hide ListsOk, Without;
      var prev := slabs[pg].freeCount;
      AllocLists(l, slabs, full, partial, empty, pg, s);
      if prev == l.chunks {
        empty := Without(empty, pg);
        partial := [pg] + partial;
      } else if prev == 1 {
        partial := Without(partial, pg);
        full := [pg] + full;
      }
    }

    /** `slab_alloc`: the first free chunk of a slab. */
    method SlabAlloc(pg: nat) returns (o: nat)
      requires Valid() && pg in slabs && slabs[pg].freeCount > 0
      modifies this`slabs, this`full, this`partial, this`empty, this`out, table, table.buckets
      ensures Valid() && o !in old(out) && out == old(out) + {o} && old(FirstFree(pg, o))
      ensures slabs.Keys == old(slabs.Keys) && (table.buckets == old(table.buckets) || fresh(table.buckets))
    {
      hide SlabsOk, SlabOk, ChunkOf, ListsOk, OutOk, ContentsOk, LayoutOk, Without, B.Table.Valid, Fits, IsSmall;
      LayoutFits(l);
      var was := slabs[pg];
      TakeChunk(l, slabs, out, pg);
      o := was.free[0];
      var s := Slab(was.color, was.freeCount - 1, was.free[1..]);
      MoveLists(pg, s);
      ContentsChange(l, slabs, out, table.contents, pg, o);
      if !IsSmall(l) { table.Insert(B.Bufctl(o, pg)); }
      ChangeSlab(l, slabs, out, out + {o}, table.contents, pg, s, o);
      slabs := slabs[pg := s];
      out := out + {o};
    }

    /** `slab_free` */
    method SlabFree(pg: nat, o: nat)
      requires Valid() && o in out && pg in slabs && ChunkOf(l, slabs, o, pg)
      modifies this`slabs, this`full, this`partial, this`empty, this`out, table, table.buckets
      ensures Valid() && out == old(out) - {o} && slabs.Keys == old(slabs.Keys) && slabs[pg].free == [o] + old(slabs[pg].free)
      ensures table.buckets == old(table.buckets) || fresh(table.buckets)
    {
      hide SlabsOk, SlabOk, ListsOk, OutOk, ContentsOk, LayoutOk, ChunkOf, Without, B.Table.Valid;
      LayoutFits(l);
      var was := slabs[pg];
      PutChunk(l, slabs, out, pg, o);
      var count := was.freeCount + 1;
      var s := Slab(was.color, count, [o] + was.free);
      FreeLists(l, slabs, full, partial, empty, pg, s);
      if count == l.chunks {
        partial := Without(partial, pg);
        empty := [pg] + empty;
      } else if count == 1 {
        full := Without(full, pg);
        partial := [pg] + partial;
      }
      ContentsChange(l, slabs, out, table.contents, pg, o);
      if !IsSmall(l) { table.Remove(o); }
      ChangeSlab(l, slabs, out, out - {o}, table.contents, pg, s, o);
      slabs := slabs[pg := s];
      out := out - {o};
    }

    /** The slab part of `kmem_cache_alloc`: partial slabs first, then empty ones, then a new one. */
    method Alloc(pg: nat) returns (o: nat)
      requires Valid() && NewPages(l, slabs, pg)
      modifies this, table, table.buckets
      ensures Valid() && o !in old(out) && out == old(out) + {o}
      ensures slabs.Keys == if old(partial) == [] && old(empty) == [] then old(slabs.Keys) + {pg} else old(slabs.Keys)
      ensures old(partial) != [] ==> old(FirstFree(partial[0], o))
      ensures old(partial) == [] && old(empty) != [] ==> old(FirstFree(empty[0], o))
      ensures old(partial) == [] && old(empty) == [] ==> o == ChunkAt(l, pg, old(colorSeq), l.chunks - 1)
      ensures table.buckets == old(table.buckets) || fresh(table.buckets)
    {
      hide SlabsOk, SlabOk, OutOk, ContentsOk, NewPages, LayoutOk, ChunkAt;
      LayoutFits(l);
      var s;
      if partial != [] {
        s := partial[0];
      } else if empty != [] {
        s := empty[0];
      } else {
        CreateSlab(pg);
        s := empty[0];
      }
      HasRoom(l, slabs, full, partial, empty, s);
      o := SlabAlloc(s);
    }

    /** The slab part of `kmem_cache_free`. */
    method Free(o: nat)
      requires Valid() && o in out
      modifies this, table, table.buckets
      ensures Valid() && out == old(out) - {o} && slabs.Keys == old(slabs.Keys)
      ensures table.buckets == old(table.buckets) || fresh(table.buckets)
    {
      var pg;
      if IsSmall(l) {
        var header := AlignUp(o + 1, PAGE) - SLAB_HEADER;
        pg := header + SLAB_HEADER - PAGE;
        SmallSlab(l, slabs, out, o);
      } else {
        var b := table.Lookup(o);
        pg := b.slab;
      }
      SlabFree(pg, o);
    }
  }

  /** A slab on the partial or the empty list has a free chunk. */
  lemma HasRoom(l: Layout, slabs: map<nat, Slab>, full: seq<nat>, partial: seq<nat>, empty: seq<nat>, pg: nat)
    requires ListsOk(l, slabs, full, partial, empty) && l.chunks >= 2 && (pg in partial || pg in empty)
    ensures pg in slabs && slabs[pg].freeCount > 0
  {
  }

  /** Rounding the address of a small chunk up gives the page of its slab. */
  lemma SmallSlab(l: Layout, slabs: map<nat, Slab>, out: set<nat>, o: nat)
    requires LayoutOk(l) && SlabsOk(l, slabs, out) && OutOk(l, slabs, out) && IsSmall(l) && o in out
    ensures AlignUp(o + 1, PAGE) >= PAGE && ChunkOf(l, slabs, o, AlignUp(o + 1, PAGE) - PAGE)
  {
    var pg :| ChunkOf(l, slabs, o, pg);
    assert SlabOk(l, pg, slabs[pg], out);
    var i :| 0 <= i < l.chunks && o == ChunkAt(l, pg, slabs[pg].color, i);
    SmallPage(l, pg, slabs[pg].color, i);
  }

  lemma LayoutFits(l: Layout)
    requires LayoutOk(l)
    ensures Fits(l)
  {
  }
}
