/** The magazine layer of a kmem cache, in front of its slabs. */
module KmemCache {
  import opened KmemSlab
  import opened Lists

  /** The magazines of a processor; -1 stands for no magazine and for its rounds. */
  datatype CpuCache = CpuCache(loaded: int, rounds: int, prevLoaded: int, prevRounds: int)

  /** Where a magazine is. */
  datatype Spot = Loaded(cpu: nat) | Prev(cpu: nat) | OnFull | OnFree

  type Spots = map<nat, Spot>

  /** A magazine is at its spot, with as many rounds as the spot says. */
  predicate AtSpot(magSize: nat, cpus: seq<CpuCache>, full: seq<nat>, free: seq<nat>, m: nat, spot: Spot, count: nat) {
    && count <= magSize
    && match spot
       case Loaded(c) => c < |cpus| && cpus[c].loaded == m && cpus[c].rounds == count
       case Prev(c) => c < |cpus| && cpus[c].prevLoaded == m && cpus[c].prevRounds == count
       case OnFull => m in full && count == magSize
       case OnFree => m in free && count == 0
  }

  /** The magazines of a processor are there. */
  predicate CpuOk(cpus: seq<CpuCache>, spots: Spots, c: nat)
    requires c < |cpus|
  {
    && (if cpus[c].loaded < 0 then cpus[c].loaded == cpus[c].rounds == -1 else cpus[c].loaded in spots && spots[cpus[c].loaded] == Loaded(c))
    && (if cpus[c].prevLoaded < 0 then cpus[c].prevLoaded == cpus[c].prevRounds == -1
        else cpus[c].prevLoaded in spots && spots[cpus[c].prevLoaded] == Prev(c))
  }

  ghost predicate PlacesOk(magSize: nat, cpus: seq<CpuCache>, full: seq<nat>, free: seq<nat>, spots: Spots, count: map<nat, nat>) {
    && spots.Keys == count.Keys && Distinct(full) && Distinct(free)
    && (forall m :: m in spots ==> AtSpot(magSize, cpus, full, free, m, spots[m], count[m]))
    && (forall c :: 0 <= c < |cpus| ==> CpuOk(cpus, spots, c))
    && (forall m :: m in full ==> m in spots && spots[m] == OnFull)
    && (forall m :: m in free ==> m in spots && spots[m] == OnFree)
  }

  /** Each object in a magazine is one of its rounds, once. */
  ghost predicate RoundsOk(magSize: nat, mags: map<nat, seq<nat>>, count: map<nat, nat>, magOf: map<nat, nat>) {
    && mags.Keys == count.Keys
    && (forall m :: m in mags ==> |mags[m]| == magSize && count[m] <= magSize && Distinct(mags[m][..count[m]]))
    && (forall m, i :: m in mags && 0 <= i < count[m] ==> mags[m][i] in magOf && magOf[mags[m][i]] == m)
    && (forall o :: o in magOf ==> magOf[o] in mags && o in mags[magOf[o]][..count[magOf[o]]])
  }

  // Changing places ------------------------------------------------------------------

  /** `magazine_reload`: the previous magazine makes room for the loaded one. */
  function Reloaded(cpu: CpuCache, mag: int, rounds: int): CpuCache {
    CpuCache(mag, rounds, cpu.loaded, cpu.rounds)
  }

  /** The loaded magazine moves to the back. */
  function MovedBack(spots: Spots, cpus: seq<CpuCache>, c: nat): Spots
    requires c < |cpus|
  {
    if cpus[c].loaded >= 0 then spots[cpus[c].loaded := Prev(c)] else spots
  }

  /** The loaded and the previous magazine change places. */
  lemma SwapOk(magSize: nat, cpus: seq<CpuCache>, full: seq<nat>, free: seq<nat>, spots: Spots, count: map<nat, nat>, c: nat)
    requires PlacesOk(magSize, cpus, full, free, spots, count) && c < |cpus| && cpus[c].prevLoaded >= 0
    ensures var x := cpus[c];
      PlacesOk(magSize, cpus[c := Reloaded(x, x.prevLoaded, x.prevRounds)], full, free,
               MovedBack(spots, cpus, c)[x.prevLoaded := Loaded(c)], count)
  {
    hide Distinct;
    var x := cpus[c];
    var cpus', spots' := cpus[c := Reloaded(x, x.prevLoaded, x.prevRounds)], MovedBack(spots, cpus, c)[x.prevLoaded := Loaded(c)];
    var full', free', count' := full, free, count;
    assert CpuOk(cpus, spots, c);
    forall d | 0 <= d < |cpus'| ensures CpuOk(cpus', spots', d) { assert CpuOk(cpus, spots, d); }
    forall k | k in spots' ensures AtSpot(magSize, cpus', full', free', k, spots'[k], count'[k]) {
      assert k in spots ==> AtSpot(magSize, cpus, full, free, k, spots[k], count[k]);
    }
  }

  function NoPrev(x: CpuCache): CpuCache {
    x.(prevLoaded := -1, prevRounds := -1)
  }

  /** An empty previous magazine goes to the free list. */
  lemma PrevFreed(magSize: nat, cpus: seq<CpuCache>, full: seq<nat>, free: seq<nat>, spots: Spots, count: map<nat, nat>, c: nat)
    requires PlacesOk(magSize, cpus, full, free, spots, count) && c < |cpus|
    requires cpus[c].prevLoaded >= 0 && cpus[c].prevRounds == 0
    ensures var p := cpus[c].prevLoaded;
      PlacesOk(magSize, cpus[c := NoPrev(cpus[c])], full, [p] + free, spots[p := OnFree], count)
  {
    hide Distinct;
    var p: nat := cpus[c].prevLoaded;
    var cpus', free', spots' := cpus[c := NoPrev(cpus[c])], [p] + free, spots[p := OnFree];
    assert CpuOk(cpus, spots, c);
    InsertDistinct(free, p);
    forall d | 0 <= d < |cpus'| ensures CpuOk(cpus', spots', d) { assert CpuOk(cpus, spots, d); }
    forall k | k in spots' ensures AtSpot(magSize, cpus', full, free', k, spots'[k], count[k]) {
      assert k in spots ==> AtSpot(magSize, cpus, full, free, k, spots[k], count[k]);
    }
  }

  /** A full previous magazine goes to the full list. */
  lemma PrevFilled(magSize: nat, cpus: seq<CpuCache>, full: seq<nat>, free: seq<nat>, spots: Spots, count: map<nat, nat>, c: nat)
    requires PlacesOk(magSize, cpus, full, free, spots, count) && c < |cpus|
    requires cpus[c].prevLoaded >= 0 && cpus[c].prevRounds == magSize
    ensures var p := cpus[c].prevLoaded;
      PlacesOk(magSize, cpus[c := NoPrev(cpus[c])], [p] + full, free, spots[p := OnFull], count)
  {
    hide Distinct;
    var p: nat := cpus[c].prevLoaded;
    var cpus', full', spots' := cpus[c := NoPrev(cpus[c])], [p] + full, spots[p := OnFull];
    assert CpuOk(cpus, spots, c);
    InsertDistinct(full, p);
    forall d | 0 <= d < |cpus'| ensures CpuOk(cpus', spots', d) { assert CpuOk(cpus, spots, d); }
    forall k | k in spots' ensures AtSpot(magSize, cpus', full', free, k, spots'[k], count[k]) {
      assert k in spots ==> AtSpot(magSize, cpus, full, free, k, spots[k], count[k]);
    }
  }

  /** The first full magazine is loaded where there is no previous one. */
  lemma FullLoaded(magSize: nat, cpus: seq<CpuCache>, full: seq<nat>, free: seq<nat>, spots: Spots, count: map<nat, nat>, c: nat)
    requires PlacesOk(magSize, cpus, full, free, spots, count) && c < |cpus| && full != [] && cpus[c].prevLoaded < 0
    ensures PlacesOk(magSize, cpus[c := Reloaded(cpus[c], full[0], magSize)], full[1..], free, MovedBack(spots, cpus, c)[full[0] := Loaded(c)], count)
  {
    hide Distinct;
    var cpus', full', spots' := cpus[c := Reloaded(cpus[c], full[0], magSize)], full[1..], MovedBack(spots, cpus, c)[full[0] := Loaded(c)];
    assert CpuOk(cpus, spots, c);
    Head(full);
    forall d | 0 <= d < |cpus'| ensures CpuOk(cpus', spots', d) { assert CpuOk(cpus, spots, d); }
    forall k | k in spots' ensures AtSpot(magSize, cpus', full', free, k, spots'[k], count[k]) {
      assert k in spots ==> AtSpot(magSize, cpus, full, free, k, spots[k], count[k]);
    }
  }

  /** The first empty magazine is loaded where there is no previous one. */
  lemma FreeLoaded(magSize: nat, cpus: seq<CpuCache>, full: seq<nat>, free: seq<nat>, spots: Spots, count: map<nat, nat>, c: nat)
    requires PlacesOk(magSize, cpus, full, free, spots, count) && c < |cpus| && free != [] && cpus[c].prevLoaded < 0
    ensures PlacesOk(magSize, cpus[c := Reloaded(cpus[c], free[0], 0)], full, free[1..], MovedBack(spots, cpus, c)[free[0] := Loaded(c)], count)
  {
    hide Distinct;
    var cpus', free', spots' := cpus[c := Reloaded(cpus[c], free[0], 0)], free[1..], MovedBack(spots, cpus, c)[free[0] := Loaded(c)];
    assert CpuOk(cpus, spots, c);
    Head(free);
    forall d | 0 <= d < |cpus'| ensures CpuOk(cpus', spots', d) { assert CpuOk(cpus, spots, d); }
    forall k | k in spots' ensures AtSpot(magSize, cpus', full, free', k, spots'[k], count[k]) {
      assert k in spots ==> AtSpot(magSize, cpus, full, free, k, spots[k], count[k]);
    }
  }

  /** A full magazine is loaded, and an empty previous one goes to the free list. */
  lemma LoadFullOk(magSize: nat, cpus: seq<CpuCache>, full: seq<nat>, free: seq<nat>, spots: Spots, count: map<nat, nat>, c: nat)
    requires PlacesOk(magSize, cpus, full, free, spots, count) && c < |cpus| && full != []
    requires cpus[c].prevLoaded >= 0 ==> cpus[c].prevRounds == 0
    ensures var x, m := cpus[c], full[0];
      var freed := if x.prevLoaded >= 0 then [x.prevLoaded] + free else free;
      var s := if x.prevLoaded >= 0 then spots[x.prevLoaded := OnFree] else spots;
      PlacesOk(magSize, cpus[c := Reloaded(x, m, magSize)], full[1..], freed, MovedBack(s, cpus, c)[m := Loaded(c)], count)
  {
    hide PlacesOk;
    var x := cpus[c];
    if x.prevLoaded >= 0 {
      var cpus1 := cpus[c := NoPrev(x)];
      PrevFreed(magSize, cpus, full, free, spots, count, c);
      FullLoaded(magSize, cpus1, full, [x.prevLoaded] + free, spots[x.prevLoaded := OnFree], count, c);
      assert cpus1[c := Reloaded(cpus1[c], full[0], magSize)] == cpus[c := Reloaded(x, full[0], magSize)];
    } else {
      FullLoaded(magSize, cpus, full, free, spots, count, c);
    }
  }

  /** An empty magazine is loaded, and a full previous one goes to the full list. */
  lemma LoadFreeOk(magSize: nat, cpus: seq<CpuCache>, full: seq<nat>, free: seq<nat>, spots: Spots, count: map<nat, nat>, c: nat)
    requires PlacesOk(magSize, cpus, full, free, spots, count) && c < |cpus| && free != []
    requires cpus[c].prevLoaded >= 0 ==> cpus[c].prevRounds == magSize
    ensures var x, m := cpus[c], free[0];
      var filled := if x.prevLoaded >= 0 then [x.prevLoaded] + full else full;
      var s := if x.prevLoaded >= 0 then spots[x.prevLoaded := OnFull] else spots;
      PlacesOk(magSize, cpus[c := Reloaded(x, m, 0)], filled, free[1..], MovedBack(s, cpus, c)[m := Loaded(c)], count)
  {
    hide PlacesOk;
    var x := cpus[c];
    if x.prevLoaded >= 0 {
      var cpus1 := cpus[c := NoPrev(x)];
      PrevFilled(magSize, cpus, full, free, spots, count, c);
      FreeLoaded(magSize, cpus1, [x.prevLoaded] + full, free, spots[x.prevLoaded := OnFull], count, c);
      assert cpus1[c := Reloaded(cpus1[c], free[0], 0)] == cpus[c := Reloaded(x, free[0], 0)];
    } else {
      FreeLoaded(magSize, cpus, full, free, spots, count, c);
    }
  }

  lemma Head(s: seq<nat>)
    requires Distinct(s) && s != []
    ensures Distinct(s[1..]) && forall x :: x in s[1..] <==> x in s && x != s[0]
  {
    assert s == [s[0]] + s[1..];
  }

  /** The number of rounds in the loaded magazine changes. */
  lemma CountOk(magSize: nat, cpus: seq<CpuCache>, full: seq<nat>, free: seq<nat>, spots: Spots, count: map<nat, nat>, c: nat, n: nat)
    requires PlacesOk(magSize, cpus, full, free, spots, count) && c < |cpus| && cpus[c].loaded >= 0 && n <= magSize
    ensures PlacesOk(magSize, cpus[c := cpus[c].(rounds := n)], full, free, spots, count[cpus[c].loaded := n])
  {
    hide Distinct;
    var cpus', count' := cpus[c := cpus[c].(rounds := n)], count[cpus[c].loaded := n];
    var spots', full', free' := spots, full, free;
    assert CpuOk(cpus, spots, c);
    forall d | 0 <= d < |cpus'| ensures CpuOk(cpus', spots', d) { assert CpuOk(cpus, spots, d); }
    forall k | k in spots' ensures AtSpot(magSize, cpus', full', free', k, spots'[k], count'[k]) {
      assert k in spots ==> AtSpot(magSize, cpus, full, free, k, spots[k], count[k]);
    }
  }

  /** A new magazine on the free list. */
  lemma AddOk(magSize: nat, cpus: seq<CpuCache>, full: seq<nat>, free: seq<nat>, spots: Spots, count: map<nat, nat>, m: nat)
    requires PlacesOk(magSize, cpus, full, free, spots, count) && m !in spots
    ensures PlacesOk(magSize, cpus, full, [m] + free, spots[m := OnFree], count[m := 0])
  {
    var cpus', full', free' := cpus, full, [m] + free;
    var spots', count' := spots[m := OnFree], count[m := 0];
    forall d | 0 <= d < |cpus'| ensures CpuOk(cpus', spots', d) { assert CpuOk(cpus, spots, d); }
    forall k | k in spots' ensures AtSpot(magSize, cpus', full', free', k, spots'[k], count'[k]) {
      assert k in spots ==> AtSpot(magSize, cpus, full, free, k, spots[k], count[k]);
    }
  }

  // Rounds ---------------------------------------------------------------------------

  function WithRound(r: seq<nat>, i: nat, o: nat): seq<nat>
    requires i < |r|
  {
    r[i := o]
  }

  /** The last round is taken. */
  lemma PopOk(magSize: nat, mags: map<nat, seq<nat>>, count: map<nat, nat>, magOf: map<nat, nat>, m: nat)
    requires RoundsOk(magSize, mags, count, magOf) && m in mags && count[m] > 0
    ensures var o := mags[m][count[m] - 1];
      o in magOf && RoundsOk(magSize, mags, count[m := count[m] - 1], magOf - {o})
  {
    hide Distinct;
    var n, r := count[m], mags[m];
    var o := r[n - 1];
    Shorter(r, n);
    forall k, i | k in mags && k != m && 0 <= i < count[k] ensures mags[k][i] != o { }
  }

  lemma Shorter(r: seq<nat>, n: nat)
    requires 0 < n <= |r| && Distinct(r[..n])
    ensures Distinct(r[..n - 1]) && r[n - 1] !in r[..n - 1] && forall x :: x in r[..n] <==> x == r[n - 1] || x in r[..n - 1]
  {
    assert r[..n] == r[..n - 1] + [r[n - 1]];
    assert forall i :: 0 <= i < n ==> r[..n][i] == r[i];
  }

  /** A round is added. */
  lemma PushOk(magSize: nat, mags: map<nat, seq<nat>>, count: map<nat, nat>, magOf: map<nat, nat>, m: nat, o: nat)
    requires RoundsOk(magSize, mags, count, magOf) && m in mags && count[m] < magSize && o !in magOf
    ensures RoundsOk(magSize, mags[m := WithRound(mags[m], count[m], o)], count[m := count[m] + 1], magOf[o := m])
  {
    var n, r := count[m], mags[m];
    var r' := WithRound(r, n, o);
    assert r'[..n + 1] == r[..n] + [o];
    assert forall i :: 0 <= i < n ==> r[..n][i] == r[i] && r[i] in magOf;
    assert o !in r[..n];
    assert Distinct(r'[..n + 1]);
    forall x | x in magOf && magOf[x] == m ensures x in r'[..n + 1] { assert x in r[..n]; }
  }

  /** How the magazine part of `kmem_cache_free` ends. */
  datatype FreeResult = Done | NeedMagazine | NoMagazines

  class Cache {
    const magSize: nat
    const slab: SlabLayer
    var mags: map<nat, seq<nat>>
    var mlFull: seq<nat>
    var mlFree: seq<nat>
    const cpus: array<CpuCache>
    ghost var spots: Spots
    ghost var count: map<nat, nat>
    /** The magazine that holds an object. */
    ghost var magOf: map<nat, nat>

    ghost predicate Valid()
      reads this, cpus, slab, slab.table, slab.table.buckets
    {
      && slab.Valid() && MagsValid() && magOf.Keys <= slab.out
    }

    ghost predicate MagsValid()
      reads this, cpus
    {
      PlacesOk(magSize, cpus[..], mlFull, mlFree, spots, count) && RoundsOk(magSize, mags, count, magOf)
    }

    /** The objects that callers have. */
    ghost function Handed(): set<nat>
      reads this`magOf, slab`out
    {
      slab.out - magOf.Keys
    }

    constructor (slab: SlabLayer, ncpus: nat, magSize: nat)
      requires slab.Valid()
      ensures Valid() && Handed() == slab.out && this.slab == slab && this.magSize == magSize
      ensures fresh(cpus) && cpus.Length == ncpus && mlFull == [] && mlFree == []
    {
      this.magSize := magSize;
      this.slab := slab;
      mags := map[];
      mlFull, mlFree := [], [];
      cpus := new CpuCache[ncpus](_ => CpuCache(-1, -1, -1, -1));
      spots, count, magOf := map[], map[], map[];
    }

    /** Whether a magazine of a processor is not full, as unsigned comparison sees it. */
    predicate Below(rounds: int) {
      0 <= rounds < magSize
    }

    /** The magazine the next round comes from, or -1: the loaded one if it has a
        round, then the previous one, then the first full one of the depot. */
    ghost function RoundFrom(c: nat): int
      requires c < cpus.Length
      reads this, cpus
    {
      if cpus[c].rounds > 0 then cpus[c].loaded else if cpus[c].prevRounds > 0 then cpus[c].prevLoaded
      else if magSize > 0 && mlFull != [] then mlFull[0] else -1
    }

    /** `o` is the last round of magazine `m`. */
    ghost predicate LastRound(m: int, o: int)
      reads this
    {
      m in mags && m in count && 0 < count[m] <= |mags[m]| && mags[m][count[m] - 1] == o
    }

    /** There is a place for a round in a magazine of the processor or the depot. */
    ghost predicate TakesRound(c: nat)
      requires c < cpus.Length
      reads this, cpus
    {
      0 <= cpus[c].rounds < magSize || 0 <= cpus[c].prevRounds < magSize || (magSize > 0 && mlFree != [])
    }

    /** The loaded and the previous magazine change places. */
    method Swap(c: nat)
      requires MagsValid() && c < cpus.Length && cpus[c].prevLoaded >= 0
      modifies this`spots, cpus
      ensures MagsValid() && cpus[..] == old(cpus[..][c := Reloaded(cpus[c], cpus[c].prevLoaded, cpus[c].prevRounds)])
    {
      hide PlacesOk, RoundsOk;
      var x := cpus[c];
      SwapOk(magSize, cpus[..], mlFull, mlFree, spots, count, c);
      spots := MovedBack(spots, cpus[..], c)[x.prevLoaded := Loaded(c)];
      cpus[c] := Reloaded(x, x.prevLoaded, x.prevRounds);
      assert cpus[..] == old(cpus[..])[c := Reloaded(x, x.prevLoaded, x.prevRounds)];
    }

    /** The magazine part of `kmem_cache_alloc`: a round, or -1. */
    method AllocRound(c: nat) returns (o: int)
      requires MagsValid() && c < cpus.Length
      modifies this`mlFull, this`mlFree, this`spots, this`count, this`magOf, cpus
      ensures MagsValid() && -1 <= o
      ensures o >= 0 ==> o in old(magOf) && magOf == old(magOf) - {o}
      ensures o < 0 ==> magOf == old(magOf) && cpus[..] == old(cpus[..])
      ensures o >= 0 <==> old(RoundFrom(c)) >= 0
      ensures o >= 0 ==> old(LastRound(RoundFrom(c), o))
    {
      hide PlacesOk, RoundsOk;
      while true
        invariant MagsValid() && magOf == old(magOf) && count == old(count)
        invariant RoundFrom(c) == old(RoundFrom(c))
        invariant cpus[c].rounds > 0 || (cpus[..] == old(cpus[..]) && mlFull == old(mlFull) && mlFree == old(mlFree))
        decreases if cpus[c].rounds > 0 then 0 else 1
      {
        CpuIs(c);
        if cpus[c].rounds > 0 {
          o := PopRound(c);
          return;
        }
        if cpus[c].prevRounds > 0 {
          Swap(c);
          continue;
        }
        if magSize == 0 { return -1; }
        if mlFull == [] { return -1; }
        LoadFull(c);
      }
    }

    /** `ml_full` gives a magazine, and `ml_free` gets the empty previous one. */
    method LoadFull(c: nat)
      requires MagsValid() && c < cpus.Length && mlFull != [] && (cpus[c].prevLoaded >= 0 ==> cpus[c].prevRounds == 0)
      modifies this`mlFull, this`mlFree, this`spots, cpus
      ensures MagsValid() && cpus[..] == old(cpus[..][c := Reloaded(cpus[c], mlFull[0], magSize)])
      ensures mlFull == old(mlFull)[1..]
    {
      hide PlacesOk, RoundsOk;
      LoadFullOk(magSize, cpus[..], mlFull, mlFree, spots, count, c);
      var mag, x := mlFull[0], cpus[c];
      mlFull := mlFull[1..];
      if x.prevLoaded >= 0 {
        mlFree := [x.prevLoaded] + mlFree;
        spots := spots[x.prevLoaded := OnFree];
      }
      spots := MovedBack(spots, cpus[..], c)[mag := Loaded(c)];
      cpus[c] := Reloaded(x, mag, magSize);
      assert cpus[..] == old(cpus[..])[c := Reloaded(x, mag, magSize)];
    }

    /** `ml_free` gives a magazine, and `ml_full` gets the full previous one. */
    method LoadFree(c: nat)
      requires MagsValid() && c < cpus.Length && mlFree != [] && (cpus[c].prevLoaded >= 0 ==> cpus[c].prevRounds == magSize)
      modifies this`mlFull, this`mlFree, this`spots, cpus
      ensures MagsValid() && cpus[..] == old(cpus[..][c := Reloaded(cpus[c], mlFree[0], 0)])
      ensures mlFree == old(mlFree)[1..]
    {
      hide PlacesOk, RoundsOk;
      LoadFreeOk(magSize, cpus[..], mlFull, mlFree, spots, count, c);
      var mag, x := mlFree[0], cpus[c];
      mlFree := mlFree[1..];
      if x.prevLoaded >= 0 {
        mlFull := [x.prevLoaded] + mlFull;
        spots := spots[x.prevLoaded := OnFull];
      }
      spots := MovedBack(spots, cpus[..], c)[mag := Loaded(c)];
      cpus[c] := Reloaded(x, mag, 0);
      assert cpus[..] == old(cpus[..])[c := Reloaded(x, mag, 0)];
    }

    lemma CpuIs(c: nat)
      requires MagsValid() && c < cpus.Length
      ensures cpus[c].loaded < 0 ==> cpus[c].loaded == cpus[c].rounds == -1
      ensures cpus[c].loaded >= 0 ==> cpus[c].loaded in mags && 0 <= cpus[c].rounds == count[cpus[c].loaded] <= magSize
      ensures cpus[c].prevLoaded < 0 ==> cpus[c].prevLoaded == cpus[c].prevRounds == -1
      ensures cpus[c].prevLoaded >= 0 ==> 0 <= cpus[c].prevRounds <= magSize
    {
      hide RoundsOk;
      var m, p := cpus[c].loaded, cpus[c].prevLoaded;
      assert CpuOk(cpus[..], spots, c);
      assert m >= 0 ==> AtSpot(magSize, cpus[..], mlFull, mlFree, m, spots[m], count[m]);
      assert p >= 0 ==> AtSpot(magSize, cpus[..], mlFull, mlFree, p, spots[p], count[p]);
      assert mags.Keys == count.Keys by { SameKeys(magSize, mags, count, magOf); }
    }

    /** Each chunk is in one place: free in its slab, a round of one magazine, or handed out. */
    lemma OnePlace(o: nat, pg: nat)
      requires Valid() && ChunkOf(slab.l, slab.slabs, o, pg)
      ensures o in slab.slabs[pg].free <==> o !in magOf && o !in Handed()
      ensures o in magOf ==> o !in Handed() && magOf[o] in mags && o in mags[magOf[o]][..count[magOf[o]]]
      ensures forall m, i :: m in mags && 0 <= i < count[m] <= |mags[m]| && mags[m][i] == o ==> o in magOf && magOf[o] == m
    {
      hide PlacesOk, ListsOk, Apart, OutOk, ContentsOk;
      assert SlabOk(slab.l, pg, slab.slabs[pg], slab.out);
    }

    /** The lists of the depot hold full and empty magazines, and no others. */
    lemma DepotIs(m: nat)
      requires MagsValid()
      ensures m in mlFull ==> m in count && count[m] == magSize
      ensures m in mlFree ==> m in count && count[m] == 0
    {
      hide RoundsOk, Distinct;
      assert m in spots ==> AtSpot(magSize, cpus[..], mlFull, mlFree, m, spots[m], count[m]);
    }

    /** The last round of the loaded magazine. */
    method PopRound(c: nat) returns (o: nat)
      requires MagsValid() && c < cpus.Length && cpus[c].rounds > 0
      modifies this`count, this`magOf, cpus
      ensures MagsValid() && o in old(magOf) && magOf == old(magOf) - {o} && old(LastRound(cpus[c].loaded, o))
    {
      hide PlacesOk, RoundsOk, Distinct;
      CpuIs(c);
      var m, n := cpus[c].loaded, cpus[c].rounds - 1;
      SizeOf(magSize, mags, count, magOf, m);
      PopOk(magSize, mags, count, magOf, m);
      CountOk(magSize, cpus[..], mlFull, mlFree, spots, count, c, n);
      o := mags[m][n];
      count := count[m := n];
      magOf := magOf - {o};
      cpus[c] := cpus[c].(rounds := n);
      assert cpus[..] == old(cpus[..])[c := old(cpus[c]).(rounds := n)];
    }

    /** An object becomes the last round of the loaded magazine. */
    method PushRound(c: nat, o: nat)
      requires MagsValid() && c < cpus.Length && Below(cpus[c].rounds) && o !in magOf
      modifies this`mags, this`count, this`magOf, cpus
      ensures MagsValid() && magOf.Keys == old(magOf.Keys) + {o} && LastRound(cpus[c].loaded, o) && cpus[c].rounds > 0
    {
      hide PlacesOk, RoundsOk, Distinct;
      CpuIs(c);
      var m, n := cpus[c].loaded, cpus[c].rounds + 1;
      SizeOf(magSize, mags, count, magOf, m);
      PushOk(magSize, mags, count, magOf, m, o);
      CountOk(magSize, cpus[..], mlFull, mlFree, spots, count, c, n);
      mags := mags[m := WithRound(mags[m], n - 1, o)];
      count := count[m := n];
      magOf := magOf[o := m];
      cpus[c] := cpus[c].(rounds := n);
      assert cpus[..] == old(cpus[..])[c := old(cpus[c]).(rounds := n)];
    }

    /** The magazine part of `kmem_cache_free`. */
    method FreeRound(c: nat, o: nat) returns (r: FreeResult)
      requires MagsValid() && c < cpus.Length && o !in magOf
      modifies this`mags, this`mlFull, this`mlFree, this`spots, this`count, this`magOf, cpus
      ensures MagsValid()
      ensures r.Done? ==> magOf.Keys == old(magOf.Keys) + {o} && RoundFrom(c) >= 0 && LastRound(RoundFrom(c), o)
      ensures !r.Done? ==> magOf == old(magOf) && cpus[..] == old(cpus[..]) && mags == old(mags)
      ensures r.NoMagazines? <==> magSize == 0
      ensures r.Done? <==> old(TakesRound(c))
    {
      hide PlacesOk, RoundsOk;
      while true
        invariant MagsValid() && magOf == old(magOf) && mags == old(mags)
        invariant TakesRound(c) == old(TakesRound(c))
        invariant Below(cpus[c].rounds) || (cpus[..] == old(cpus[..]) && mlFull == old(mlFull) && mlFree == old(mlFree))
        decreases if Below(cpus[c].rounds) then 0 else 1
      {
        CpuIs(c);
        if Below(cpus[c].rounds) {
          PushRound(c, o);
          return Done;
        }
        if Below(cpus[c].prevRounds) {
          Swap(c);
          continue;
        }
        if magSize == 0 { return NoMagazines; }
        if mlFree == [] { return NeedMagazine; }
        LoadFree(c);
      }
    }

    /** A new magazine, from its own cache, goes to the free list. */
    method AddMagazine(m: nat, rounds: seq<nat>)
      requires MagsValid() && m !in mags && |rounds| == magSize
      modifies this`mags, this`mlFree, this`spots, this`count
      ensures MagsValid() && mlFree == [m] + old(mlFree) && magOf == old(magOf)
    {
      SameKeys(magSize, mags, count, magOf);
      NewEmpty(magSize, mags, count, magOf, m, rounds);
      AddOk(magSize, cpus[..], mlFull, mlFree, spots, count, m);
      hide PlacesOk, RoundsOk;
      mags := mags[m := rounds];
      mlFree := [m] + mlFree;
      spots := spots[m := OnFree];
      count := count[m := 0];
    }

    /** `kmem_cache_alloc`: an object nobody has. */
    method Alloc(c: nat, pg: nat) returns (o: nat)
      requires Valid() && c < cpus.Length && NewPages(slab.l, slab.slabs, pg)
      modifies this, cpus, slab, slab.table, slab.table.buckets
      ensures Valid() && o !in old(Handed()) && Handed() == old(Handed()) + {o}
      ensures old(RoundFrom(c)) >= 0 ==> old(LastRound(RoundFrom(c), o)) && slab.out == old(slab.out)
      ensures old(RoundFrom(c)) < 0 ==> magOf == old(magOf) && slab.out == old(slab.out) + {o}
      ensures slab.table.buckets == old(slab.table.buckets) || fresh(slab.table.buckets)
    {
      hide MagsValid, PlacesOk, RoundsOk, SlabLayer.Valid, NewPages;
      var round := AllocRound(c);
      if round >= 0 {
        o := round;
        return;
      }
      o := slab.Alloc(pg);
    }

    /** `kmem_cache_free`; `spare` is a new magazine, if one is to be had. */
    method Free(c: nat, o: nat, spare: int, rounds: seq<nat>)
      requires Valid() && c < cpus.Length && o in Handed()
      requires spare >= 0 ==> spare !in mags && |rounds| == magSize
      modifies this, cpus, slab, slab.table, slab.table.buckets
      ensures Valid() && Handed() == old(Handed()) - {o}
      ensures old(TakesRound(c)) || (magSize > 0 && spare >= 0) ==>
        slab.out == old(slab.out) && RoundFrom(c) >= 0 && LastRound(RoundFrom(c), o)
      ensures !old(TakesRound(c)) && (magSize == 0 || spare < 0) ==> slab.out == old(slab.out) - {o} && magOf == old(magOf)
      ensures slab.table.buckets == old(slab.table.buckets) || fresh(slab.table.buckets)
    {
      hide MagsValid, PlacesOk, RoundsOk, SlabLayer.Valid, NewPages;
      var r := FreeRound(c, o);
      if r.NeedMagazine? && spare >= 0 {
        AddMagazine(spare, rounds);
        r := FreeRound(c, o);
      }
      if !r.Done? {
        slab.Free(o);
      }
    }
  }

  lemma SameKeys(magSize: nat, mags: map<nat, seq<nat>>, count: map<nat, nat>, magOf: map<nat, nat>)
    requires RoundsOk(magSize, mags, count, magOf)
    ensures mags.Keys == count.Keys
  {
  }

  lemma SizeOf(magSize: nat, mags: map<nat, seq<nat>>, count: map<nat, nat>, magOf: map<nat, nat>, m: nat)
    requires RoundsOk(magSize, mags, count, magOf) && m in mags
    ensures m in count && |mags[m]| == magSize && count[m] <= magSize
  {
  }

  lemma NewEmpty(magSize: nat, mags: map<nat, seq<nat>>, count: map<nat, nat>, magOf: map<nat, nat>, m: nat, rounds: seq<nat>)
    requires RoundsOk(magSize, mags, count, magOf) && m !in mags && |rounds| == magSize
    ensures RoundsOk(magSize, mags[m := rounds], count[m := 0], magOf)
  {
  }
}
