/** The three levels of tables that stand for the slots of amaps. */
module AmapRadix {
  import opened AmapIndex

  /** No anon, and no table. */
  const NULL: int := -1

  type Table = seq<int>

  /** The tables of all amaps, by address; `l3s` has one for each amap, or none yet. */
  datatype Tables = Tables(l3s: map<int, Table>, l2s: map<int, Table>, l1s: map<int, Table>)

  /** Which entry leads to each table. */
  datatype Owners = Owners(of2: map<int, (int, int)>, of1: map<int, (int, int)>)

  ghost predicate Shaped(ts: Tables, own: Owners) {
    && ts.l2s.Keys == own.of2.Keys && ts.l1s.Keys == own.of1.Keys
    && (forall a :: a in ts.l3s ==> ts.l3s[a] == [] || |ts.l3s[a]| == WIDTH)
    && (forall t :: t in ts.l2s ==> t >= 0 && |ts.l2s[t]| == WIDTH)
    && (forall u :: u in ts.l1s ==> u >= 0 && |ts.l1s[u]| == WIDTH)
    && (forall a, i :: a in ts.l3s && 0 <= i < |ts.l3s[a]| && ts.l3s[a][i] != NULL ==>
          ts.l3s[a][i] in ts.l2s && own.of2[ts.l3s[a][i]] == (a, i))
    && (forall t, j :: t in ts.l2s && 0 <= j < |ts.l2s[t]| && ts.l2s[t][j] != NULL ==>
          ts.l2s[t][j] in ts.l1s && own.of1[ts.l2s[t][j]] == (t, j))
  }

  /** The table of level 2 and then of level 1 on the way to a slot, or NULL. */
  function Way2(ts: Tables, a: nat, s: Index): int {
    if a in ts.l3s && s.i < |ts.l3s[a]| then ts.l3s[a][s.i] else NULL
  }

  function Way1(ts: Tables, a: nat, s: Index): int {
    var t := Way2(ts, a, s);
    if t in ts.l2s && s.j < |ts.l2s[t]| then ts.l2s[t][s.j] else NULL
  }

  /** The anon in a slot of an amap. */
  function At(ts: Tables, a: nat, s: Index): int {
    var u := Way1(ts, a, s);
    if u in ts.l1s && s.k < |ts.l1s[u]| then ts.l1s[u][s.k] else NULL
  }

  /** The number of the page before which a walk over the tables is. */
  function Page(i: nat, j: nat, k: nat): nat {
    (i * WIDTH + j) * WIDTH + k
  }

  function Blank(): (t: Table)
    ensures |t| == WIDTH && forall i :: 0 <= i < WIDTH ==> t[i] == NULL
  {
    seq(WIDTH, _ => NULL)
  }

  // What a store shows ---------------------------------------------------------------

  /** A new third level shows nothing. */
  lemma NewL3(ts: Tables, own: Owners, a: nat)
    requires Shaped(ts, own) && (a in ts.l3s ==> ts.l3s[a] == [])
    ensures var r := ts.(l3s := ts.l3s[a := Blank()]); Shaped(r, own) && forall b, s :: At(r, b, s) == At(ts, b, s)
  {
  }

  /** A new table of level 2 behind an empty entry shows nothing. */
  lemma NewL2(ts: Tables, own: Owners, a: nat, i: nat, t: nat)
    requires Shaped(ts, own) && a in ts.l3s && i < |ts.l3s[a]| && ts.l3s[a][i] == NULL && t !in ts.l2s
    ensures
      var r := ts.(l3s := ts.l3s[a := ts.l3s[a][i := t]], l2s := ts.l2s[t := Blank()]);
      Shaped(r, own.(of2 := own.of2[t := (a, i)])) && forall b, s :: At(r, b, s) == At(ts, b, s)
  {
    var r := ts.(l3s := ts.l3s[a := ts.l3s[a][i := t]], l2s := ts.l2s[t := Blank()]);
    forall b, s: Index ensures At(r, b, s) == At(ts, b, s) {
      if b == a && s.i == i {
        assert Way1(r, b, s) == NULL;
      } else {
        assert Way2(r, b, s) == Way2(ts, b, s);
      }
    }
  }

  /** A new table of level 1 behind an empty entry shows nothing. */
  lemma NewL1(ts: Tables, own: Owners, t: int, j: nat, u: nat)
    requires Shaped(ts, own) && t in ts.l2s && j < |ts.l2s[t]| && ts.l2s[t][j] == NULL && u !in ts.l1s
    ensures
      var r := ts.(l2s := ts.l2s[t := ts.l2s[t][j := u]], l1s := ts.l1s[u := Blank()]);
      Shaped(r, own.(of1 := own.of1[u := (t, j)])) && forall b, s :: At(r, b, s) == At(ts, b, s)
  {
    var r := ts.(l2s := ts.l2s[t := ts.l2s[t][j := u]], l1s := ts.l1s[u := Blank()]);
    forall b, s: Index ensures At(r, b, s) == At(ts, b, s) {
      if Way2(ts, b, s) == t && s.j == j {
        assert Way1(r, b, s) == u;
      } else {
        assert Way1(r, b, s) == Way1(ts, b, s);
      }
    }
  }

  /** A store in a table of level 1 shows in one slot of one amap. */
  lemma StoreShows(ts: Tables, own: Owners, a: nat, s: Index, v: int, b: nat, q: Index)
    requires Shaped(ts, own) && Way1(ts, a, s) in ts.l1s && a in ts.l3s && b in ts.l3s
    ensures
      var u := Way1(ts, a, s);
      var r := ts.(l1s := ts.l1s[u := ts.l1s[u][s.k := v]]);
      Shaped(r, own) && At(r, b, q) == if b == a && q == s then v else At(ts, b, q)
  {
    var t, t' := Way2(ts, a, s), Way2(ts, b, q);
    var u, u' := Way1(ts, a, s), Way1(ts, b, q);
    if u == u' {
      assert own.of1[u] == (t, s.j) && own.of1[u'] == (t', q.j);
      assert own.of2[t] == (a, s.i) && own.of2[t'] == (b, q.i);
    }
  }

  // References -----------------------------------------------------------------------

  /** The anons in the slots of the first `n` pages, as often as they occur. */
  function Anons(ts: Tables, a: nat, n: nat): multiset<int> {
    if n == 0 then multiset{}
    else Anons(ts, a, n - 1) + (if At(ts, a, IndexOf(n - 1)) == NULL then multiset{} else multiset{At(ts, a, IndexOf(n - 1))})
  }

  lemma {:induction false} AnonsSkip(ts: Tables, a: nat, n: nat, m: nat)
    requires n <= m && forall p :: n <= p < m ==> At(ts, a, IndexOf(p)) == NULL
    ensures Anons(ts, a, m) == Anons(ts, a, n)
    decreases m
  {
    if n < m { AnonsSkip(ts, a, n, m - 1); }
  }

  /** How far the slots of `a` have been copied to `b`: those before page `n`. */
  ghost predicate Copied(ts: Tables, was: Tables, a: nat, b: nat, n: nat) {
    && ts.l3s.Keys == was.l3s.Keys + {b}
    && (forall s :: At(ts, b, s) == if PageOf(s) < n then At(was, a, s) else NULL)
    && (forall c, s :: c in was.l3s ==> At(ts, c, s) == At(was, c, s))
  }

  class Amaps {
    var ts: Tables
    var next: nat
    /** The references to each anon. */
    var refs: multiset<int>
    ghost var own: Owners

    ghost predicate Valid()
      reads this
    {
      && Shaped(ts, own) && (forall t :: t in ts.l2s ==> t < next) && (forall u :: u in ts.l1s ==> u < next)
      && (forall a :: a in ts.l3s ==> a < next)
    }

    constructor ()
      ensures Valid() && ts.l3s == map[] && refs == multiset{}
    {
      ts := Tables(map[], map[], map[]);
      next := 0;
      refs := multiset{};
      own := Owners(map[], map[]);
    }

    /** The tables of `vm_amap_create`: none. */
    method Create() returns (a: nat)
      requires Valid()
      modifies this
      ensures Valid() && a !in old(ts.l3s) && ts.l3s == old(ts.l3s)[a := []] && refs == old(refs)
      ensures forall s :: At(ts, a, s) == NULL
      ensures forall b, s :: b in old(ts.l3s) ==> At(ts, b, s) == At(old(ts), b, s)
    {
      a := next;
      next := next + 1;
      ts := ts.(l3s := ts.l3s[a := []]);
    }

    /** `locked_amap_lookup`: the table that holds the slot of a page, or NULL. */
    method Lookup(a: nat, pg: nat, create: bool) returns (u: int)
      requires Valid() && a in ts.l3s
      modifies this
      ensures Valid() && ts.l3s.Keys == old(ts.l3s.Keys) && refs == old(refs)
      ensures forall b, s :: At(ts, b, s) == At(old(ts), b, s)
      ensures u == Way1(ts, a, IndexOf(pg)) && (create ==> u != NULL)
      ensures u == NULL ==> At(ts, a, IndexOf(pg)) == NULL
    {
      var s := IndexOf(pg);
      hide IndexOf, At;
      if ts.l3s[a] == [] {
        if !create {
          Unmade(ts, a, s);
          return NULL;
        }
        NewL3(ts, own, a);
        ts := ts.(l3s := ts.l3s[a := Blank()]);
      }
      if ts.l3s[a][s.i] == NULL {
        if !create {
          Unmade(ts, a, s);
          return NULL;
        }
        MakeL2(a, s.i);
      }
      var t := ts.l3s[a][s.i];
      if ts.l2s[t][s.j] == NULL {
        if !create {
          Unmade(ts, a, s);
          return NULL;
        }
        MakeL1(t, s.j);
      }
      u := ts.l2s[t][s.j];
    }

    method MakeL2(a: nat, i: nat)
      requires Valid() && a in ts.l3s && i < |ts.l3s[a]| && ts.l3s[a][i] == NULL
      modifies this
      ensures Valid() && ts.l3s.Keys == old(ts.l3s.Keys) && refs == old(refs)
      ensures forall b, s :: At(ts, b, s) == At(old(ts), b, s)
      ensures ts.l1s == old(ts.l1s) && (forall t :: t in old(ts.l2s) ==> t in ts.l2s && ts.l2s[t] == old(ts.l2s[t]))
      ensures old(next) !in old(ts.l2s) && old(next) in ts.l2s && ts.l2s[old(next)] == Blank()
      ensures ts.l3s == old(ts.l3s)[a := old(ts.l3s[a])[i := old(next)]]
    {
      hide At;
      NewL2(ts, own, a, i, next);
      own := own.(of2 := own.of2[next := (a, i)]);
      ts := ts.(l3s := ts.l3s[a := ts.l3s[a][i := next]], l2s := ts.l2s[next := Blank()]);
      next := next + 1;
    }

    method MakeL1(t: int, j: nat)
      requires Valid() && t in ts.l2s && j < WIDTH && ts.l2s[t][j] == NULL
      modifies this
      ensures Valid() && ts.l3s == old(ts.l3s) && refs == old(refs) && t in ts.l2s
      ensures forall b, s :: At(ts, b, s) == At(old(ts), b, s)
      ensures old(next) !in old(ts.l1s) && ts.l2s == old(ts.l2s)[t := old(ts.l2s[t])[j := old(next)]]
      ensures forall u :: u in old(ts.l1s) ==> u in ts.l1s && ts.l1s[u] == old(ts.l1s[u])
    {
      hide At;
      NewL1(ts, own, t, j, next);
      own := own.(of1 := own.of1[next := (t, j)]);
      ts := ts.(l2s := ts.l2s[t := ts.l2s[t][j := next]], l1s := ts.l1s[next := Blank()]);
      next := next + 1;
    }

    /** `*panon = anon` for the slot that a lookup found. */
    method Store(a: nat, s: Index, u: int, anon: int)
      requires Valid() && a in ts.l3s && u != NULL && u == Way1(ts, a, s)
      modifies this`ts
      ensures Valid() && ts.l3s == old(ts.l3s) && ts.l2s == old(ts.l2s) && ts.l1s.Keys == old(ts.l1s.Keys)
      ensures forall w :: w in ts.l1s && w != u ==> ts.l1s[w] == old(ts.l1s[w])
      ensures Stored(old(ts), ts, a, s, anon)
    {
      hide At;
      Made(ts, own, a, s);
      forall b: nat, q: Index | b in ts.l3s
        ensures At(ts.(l1s := ts.l1s[u := ts.l1s[u][s.k := anon]]), b, q) == if b == a && q == s then anon else At(ts, b, q)
      {
        StoreShows(ts, own, a, s, anon, b, q);
      }
      StoreShows(ts, own, a, s, anon, a, s);
      ts := ts.(l1s := ts.l1s[u := ts.l1s[u][s.k := anon]]);
    }

    /** `vm_amap_fill_locked`: a new anon in an empty slot, which all aliases of the page share. */
    method Fill(a: nat, pg: nat, anon: nat)
      requires Valid() && a in ts.l3s && At(ts, a, IndexOf(pg)) == NULL
      modifies this
      ensures Valid() && ts.l3s.Keys == old(ts.l3s.Keys) && refs == old(refs) + multiset{anon as int}
      ensures forall b, q :: b in ts.l3s ==> At(ts, b, q) == if b == a && q == IndexOf(pg) then anon else At(old(ts), b, q)
    {
      hide At, IndexOf;
      var u := Lookup(a, pg, true);
      Store(a, IndexOf(pg), u, anon);
      refs := refs + multiset{anon as int};
    }

    /** The innermost loop of `vm_amap_copy`: one table of level 1. */
    method CopyLevel1(ghost was: Tables, a: nat, b: nat, i: nat, j: nat, u: int, u2: int)
      requires Valid() && a in ts.l3s && b in ts.l3s && a != b && a in was.l3s && b !in was.l3s && i < WIDTH && j < WIDTH
      requires Links(ts, a, i, j, u) && Links(ts, b, i, j, u2) && Copied(ts, was, a, b, Page(i, j, 0))
      modifies this`ts, this`refs
      ensures Valid() && ts.l3s == old(ts.l3s) && ts.l2s == old(ts.l2s) && ts.l1s.Keys == old(ts.l1s.Keys)
      ensures Copied(ts, was, a, b, Page(i, j, WIDTH))
      ensures old(refs) + Anons(was, a, Page(i, j, WIDTH)) == refs + Anons(was, a, Page(i, j, 0))
    {
      hide At, Way1, Way2, Copied, IndexOf, Shaped, Anons;
      for k := 0 to WIDTH
        invariant Valid() && ts.l3s == old(ts.l3s) && ts.l2s == old(ts.l2s) && ts.l1s.Keys == old(ts.l1s.Keys)
        invariant Copied(ts, was, a, b, Page(i, j, k))
        invariant old(refs) + Anons(was, a, Page(i, j, k)) == refs + Anons(was, a, Page(i, j, 0))
      {
        var s := Digits(i, j, k);
        LinksAt(ts, own, a, s, u);
        LinksAt(ts, own, b, s, u2);
        IndexOfPage(s);
        var anon := ts.l1s[u][k];
        ghost var before := ts;
        CopiedAt(before, was, a, b, s);
        AnonsNext(was, a, s);
        MoreRefs(old(refs), Anons(was, a, PageOf(s)), refs, Anons(was, a, Page(i, j, 0)), anon);
        if anon != NULL {
          refs := refs + multiset{anon};
          Store(b, s, u2, anon);
        }
        NextCopied(before, ts, was, a, b, s, anon);
      }
    }

    /** The middle loop of `vm_amap_copy`: one table of level 2. */
    method CopyLevel2(ghost was: Tables, a: nat, b: nat, i: nat, t: int, t2: int)
      requires Valid() && a in ts.l3s && b in ts.l3s && a != b && a in was.l3s && b !in was.l3s && i < WIDTH
      requires Hangs(ts, a, i, t) && Hangs(ts, b, i, t2) && t != NULL && t2 != NULL && ts.l2s[t2] == Blank() && Copied(ts, was, a, b, Page(i, 0, 0))
      modifies this
      ensures Valid() && ts.l3s == old(ts.l3s) && Copied(ts, was, a, b, Page(i, WIDTH, 0))
      ensures old(refs) + Anons(was, a, Page(i, WIDTH, 0)) == refs + Anons(was, a, Page(i, 0, 0))
      ensures ts.l2s.Keys == old(ts.l2s.Keys)
    {
      hide At, Copied, IndexOf, Shaped, Anons;
      HangsApart(ts, own, a, b, i, t, t2);
      for j := 0 to WIDTH
        invariant Valid() && ts.l3s == old(ts.l3s) && ts.l2s.Keys == old(ts.l2s.Keys)
        invariant ts.l2s[t] == old(ts.l2s[t]) && |ts.l2s[t2]| == WIDTH && (forall k :: j <= k < WIDTH ==> ts.l2s[t2][k] == NULL)
        invariant Copied(ts, was, a, b, Page(i, j, 0))
        invariant old(refs) + Anons(was, a, Page(i, j, 0)) == refs + Anons(was, a, Page(i, 0, 0))
      {
        var u := ts.l2s[t][j];
        ghost var at, sum := ts, Anons(was, a, Page(i, j, 0));
        if u == NULL {
          SkipLevel1(ts, own, was, a, b, i, j, t);
        } else {
          MakeL1(t2, j);
          SameCopied(at, ts, was, a, b, Page(i, j, 0));
          LinksOf(ts, own, a, i, j, t);
          LinksOf(ts, own, b, i, j, t2);
          ghost var r := refs;
          CopyLevel1(was, a, b, i, j, u, ts.l2s[t2][j]);
          JoinRefs(old(refs), sum, r, Anons(was, a, Page(i, 0, 0)), refs, Anons(was, a, Page(i, j + 1, 0)));
        }
      }
    }

    /** `vm_amap_copy`: a new amap with the same anon in every slot, and one more
        reference to each for each slot it is in. */
    method Copy(a: nat) returns (b: nat)
      requires Valid() && a in ts.l3s
      modifies this
      ensures Valid() && b !in old(ts.l3s) && ts.l3s.Keys == old(ts.l3s.Keys) + {b}
      ensures forall s :: At(ts, b, s) == At(old(ts), a, s)
      ensures forall c, s :: c in old(ts.l3s) ==> At(ts, c, s) == At(old(ts), c, s)
      ensures refs == old(refs) + Anons(old(ts), a, REACH)
    {
      hide At, IndexOf, Shaped, Anons;
      ghost var was := ts;
      b := Create();
      StartCopy(ts, was, a, b);
      if ts.l3s[a] == [] {
        NoTables(ts, own, was, a, b);
        assert refs == old(refs) + Anons(was, a, REACH);
        return;
      }
      ghost var at := ts;
      NewL3(ts, own, b);
      ts := ts.(l3s := ts.l3s[b := Blank()]);
      SameCopied(at, ts, was, a, b, 0);
      hide Copied;
      for i := 0 to WIDTH
        invariant Valid() && a in ts.l3s && b in ts.l3s && ts.l3s[a] == was.l3s[a] && |ts.l3s[b]| == WIDTH
        invariant forall k :: i <= k < WIDTH ==> ts.l3s[b][k] == NULL
        invariant Copied(ts, was, a, b, Page(i, 0, 0))
        invariant refs == old(refs) + Anons(was, a, Page(i, 0, 0))
      {
        L3Sized(ts, own, a);
        var t := ts.l3s[a][i];
        if t == NULL {
          SkipLevel2(ts, own, was, a, b, i);
        } else {
          at := ts;
          MakeL2(b, i);
          SameCopied(at, ts, was, a, b, Page(i, 0, 0));
          LinksOf(ts, own, a, i, 0, t);
          LinksOf(ts, own, b, i, 0, ts.l3s[b][i]);
          ghost var r, sum := refs, Anons(was, a, Page(i, 0, 0));
          CopyLevel2(was, a, b, i, t, ts.l3s[b][i]);
          JoinSum(old(refs), sum, r, refs, Anons(was, a, Page(i + 1, 0, 0)));
        }
      }
      CopyDone(ts, was, a, b);
    }

    /** The innermost loop of `amap_free_all`: one table of level 1. */
    method FreeLevel1(ghost was: Tables, ghost all: multiset<int>, a: nat, i: nat, j: nat, u: int)
      requires Valid() && a in was.l3s && i < WIDTH && j < WIDTH && Links(ts, a, i, j, u)
      requires Freed(ts, was, a, Page(i, j, 0)) && refs + Anons(was, a, Page(i, j, 0)) == all && Anons(was, a, REACH) <= all
      modifies this`ts, this`refs
      ensures Valid() && ts.l3s == old(ts.l3s) && ts.l2s == old(ts.l2s)
      ensures Freed(ts, was, a, Page(i, j, WIDTH)) && refs + Anons(was, a, Page(i, j, WIDTH)) == all
    {
      hide At, Way1, Way2, Freed, IndexOf, Shaped, Anons;
      for k := 0 to WIDTH
        invariant Valid() && ts.l3s == old(ts.l3s) && ts.l2s == old(ts.l2s) && ts.l1s.Keys == old(ts.l1s.Keys)
        invariant Freed(ts, was, a, Page(i, j, k)) && refs + Anons(was, a, Page(i, j, k)) == all
      {
        var s := Digits(i, j, k);
        LinksAt(ts, own, a, s, u);
        var anon := ts.l1s[u][k];
        ghost var before := ts;
        FreedAt(before, was, a, s);
        AnonsNext(was, a, s);
        if anon != NULL {
          AnonsMore(was, a, PageOf(s) + 1, REACH);
          OneLess(refs, Anons(was, a, PageOf(s)), anon, all);
          refs := refs - multiset{anon};
          Store(a, s, u, NULL);
        }
        NextFreed(before, ts, was, a, s);
      }
    }

    /** `amap_free_all`: each slot gives up the one reference it holds. */
    method FreeAll(a: nat)
      requires Valid() && a in ts.l3s && Anons(ts, a, REACH) <= refs
      modifies this
      ensures Valid() && ts.l3s.Keys == old(ts.l3s.Keys) && ts.l3s[a] == []
      ensures forall c, s :: c in ts.l3s ==> At(ts, c, s) == if c == a then NULL else At(old(ts), c, s)
      ensures refs + Anons(old(ts), a, REACH) == old(refs)
    {
      hide At, IndexOf, Shaped, Anons;
      ghost var was, all := ts, refs;
      NothingFreed(ts, a);
      if ts.l3s[a] == [] {
        NoTablesFreed(ts, own, a);
        return;
      }
      hide Freed;
      for i := 0 to WIDTH
        invariant Valid() && ts.l3s == was.l3s && ts.l2s == was.l2s
        invariant Freed(ts, was, a, Page(i, 0, 0)) && refs + Anons(was, a, Page(i, 0, 0)) == all
      {
        L3Sized(ts, own, a);
        var t := ts.l3s[a][i];
        if t == NULL {
          SkipFreed2(ts, own, was, a, i);
          continue;
        }
        for j := 0 to WIDTH
          invariant Valid() && ts.l3s == was.l3s && ts.l2s == was.l2s
          invariant Freed(ts, was, a, Page(i, j, 0)) && refs + Anons(was, a, Page(i, j, 0)) == all
        {
          LinksOf(ts, own, a, i, j, t);
          var u := ts.l2s[t][j];
          if u == NULL {
            SkipFreed1(ts, own, was, a, i, j, t);
          } else {
            FreeLevel1(was, all, a, i, j, u);
          }
        }
      }
      Detached(ts, own, was, a);
      ts := ts.(l3s := ts.l3s[a := []]);
    }
  }

  lemma L3Sized(ts: Tables, own: Owners, a: nat)
    requires Shaped(ts, own) && a in ts.l3s
    ensures |ts.l3s[a]| == 0 || |ts.l3s[a]| == WIDTH
  {
  }

  lemma StartCopy(ts: Tables, was: Tables, a: nat, b: nat)
    requires b !in was.l3s && ts.l3s.Keys == was.l3s.Keys + {b} && (forall s :: At(ts, b, s) == NULL)
    requires forall c, s :: c in was.l3s ==> At(ts, c, s) == At(was, c, s)
    ensures Copied(ts, was, a, b, 0) && Anons(was, a, 0) == multiset{}
  {
    hide At;
  }

  lemma CopyDone(ts: Tables, was: Tables, a: nat, b: nat)
    requires Copied(ts, was, a, b, REACH)
    ensures forall s :: At(ts, b, s) == At(was, a, s)
  {
    hide At;
  }

  /** An amap without tables is empty. */
  lemma NoTables(ts: Tables, own: Owners, was: Tables, a: nat, b: nat)
    requires Shaped(ts, own) && Copied(ts, was, a, b, 0) && a in was.l3s && b !in was.l3s && a in ts.l3s && ts.l3s[a] == []
    ensures (forall s :: At(ts, b, s) == At(was, a, s)) && Anons(was, a, REACH) == Anons(was, a, 0)
  {
    hide IndexOf, Anons;
    forall s: Index ensures At(was, a, s) == NULL {
      assert At(ts, a, s) == NULL;
    }
    SkipEmpty(ts, was, a, b, 0, REACH);
  }

  lemma SkipLevel2(ts: Tables, own: Owners, was: Tables, a: nat, b: nat, i: nat)
    requires Shaped(ts, own) && Copied(ts, was, a, b, Page(i, 0, 0)) && a in was.l3s && b !in was.l3s && i < WIDTH
    requires a in ts.l3s && |ts.l3s[a]| == WIDTH && ts.l3s[a][i] == NULL
    ensures Copied(ts, was, a, b, Page(i + 1, 0, 0))
    ensures Anons(was, a, Page(i + 1, 0, 0)) == Anons(was, a, Page(i, 0, 0))
  {
    var n, m := Page(i, 0, 0), Page(i + 1, 0, 0);
    forall s | n <= PageOf(s) < m ensures At(was, a, s) == NULL {
      assert s.i == i;
      assert At(ts, a, s) == NULL;
    }
    SkipEmpty(ts, was, a, b, n, m);
  }

  lemma JoinSum(o: multiset<int>, a: multiset<int>, r: multiset<int>, r': multiset<int>, c: multiset<int>)
    requires r == o + a && r + c == r' + a
    ensures r' == o + c
  {
    forall x ensures r'[x] == (o + c)[x] {
      assert (r + c)[x] == (r' + a)[x];
    }
  }

  /** The slots before page `n` are given up. */
  ghost predicate Freed(ts: Tables, was: Tables, a: nat, n: nat) {
    && ts.l3s.Keys == was.l3s.Keys
    && forall c, s :: c in was.l3s ==> At(ts, c, s) == if c == a && PageOf(s) < n then NULL else At(was, c, s)
  }

  lemma NothingFreed(ts: Tables, a: nat)
    ensures Freed(ts, ts, a, 0) && Anons(ts, a, 0) == multiset{}
  {
    hide At;
  }

  lemma FreedAt(ts: Tables, was: Tables, a: nat, s: Index)
    requires Freed(ts, was, a, PageOf(s)) && a in was.l3s
    ensures At(ts, a, s) == At(was, a, s)
  {
    hide At;
  }

  lemma NextFreed(ts: Tables, ts': Tables, was: Tables, a: nat, s: Index)
    requires Freed(ts, was, a, PageOf(s)) && a in was.l3s && (Stored(ts, ts', a, s, NULL) || (ts' == ts && At(ts, a, s) == NULL))
    ensures Freed(ts', was, a, PageOf(s) + 1)
  {
    hide At;
    forall c, q | c in was.l3s ensures At(ts', c, q) == if c == a && PageOf(q) < PageOf(s) + 1 then NULL else At(was, c, q) {
      if PageOf(q) == PageOf(s) { SamePage(q, s); }
    }
  }

  lemma SkipFreed(ts: Tables, was: Tables, a: nat, n: nat, m: nat)
    requires Freed(ts, was, a, n) && a in was.l3s && n <= m <= REACH
    requires forall s :: n <= PageOf(s) < m ==> At(was, a, s) == NULL
    ensures Freed(ts, was, a, m) && Anons(was, a, m) == Anons(was, a, n)
  {
    hide At, IndexOf;
    forall p | n <= p < m ensures At(was, a, IndexOf(p)) == NULL {
      PageOfIndex(p);
    }
    AnonsSkip(was, a, n, m);
  }

  lemma SkipFreed1(ts: Tables, own: Owners, was: Tables, a: nat, i: nat, j: nat, t: int)
    requires Shaped(ts, own) && Freed(ts, was, a, Page(i, j, 0)) && a in was.l3s && i < WIDTH && j < WIDTH
    requires Hangs(ts, a, i, t) && ts.l2s[t][j] == NULL
    ensures Freed(ts, was, a, Page(i, j + 1, 0))
    ensures Anons(was, a, Page(i, j + 1, 0)) == Anons(was, a, Page(i, j, 0))
  {
    var n, m := Page(i, j, 0), Page(i, j + 1, 0);
    forall s | n <= PageOf(s) < m ensures At(was, a, s) == NULL {
      assert s.i == i && s.j == j;
      assert At(ts, a, s) == NULL;
    }
    SkipFreed(ts, was, a, n, m);
  }

  lemma SkipFreed2(ts: Tables, own: Owners, was: Tables, a: nat, i: nat)
    requires Shaped(ts, own) && Freed(ts, was, a, Page(i, 0, 0)) && a in was.l3s && i < WIDTH
    requires a in ts.l3s && |ts.l3s[a]| == WIDTH && ts.l3s[a][i] == NULL
    ensures Freed(ts, was, a, Page(i + 1, 0, 0))
    ensures Anons(was, a, Page(i + 1, 0, 0)) == Anons(was, a, Page(i, 0, 0))
  {
    var n, m := Page(i, 0, 0), Page(i + 1, 0, 0);
    forall s | n <= PageOf(s) < m ensures At(was, a, s) == NULL {
      assert s.i == i;
      assert At(ts, a, s) == NULL;
    }
    SkipFreed(ts, was, a, n, m);
  }

  lemma NoTablesFreed(ts: Tables, own: Owners, a: nat)
    requires Shaped(ts, own) && a in ts.l3s && ts.l3s[a] == []
    ensures (forall s :: At(ts, a, s) == NULL) && Anons(ts, a, REACH) == multiset{}
  {
    hide IndexOf;
    assert forall s: Index :: At(ts, a, s) == NULL;
    AnonsSkip(ts, a, 0, REACH);
  }

  /** Without its third level an amap is empty, and no other changes. */
  lemma Detached(ts: Tables, own: Owners, was: Tables, a: nat)
    requires Shaped(ts, own) && a in ts.l3s && Freed(ts, was, a, REACH)
    ensures var r := ts.(l3s := ts.l3s[a := []]);
      Shaped(r, own) && forall c, s :: c in r.l3s ==> At(r, c, s) == if c == a then NULL else At(was, c, s)
  {
    var r := ts.(l3s := ts.l3s[a := []]);
    forall c, s: Index | c in r.l3s ensures At(r, c, s) == if c == a then NULL else At(was, c, s) {
      if c == a { assert Way2(r, c, s) == NULL; } else { assert At(r, c, s) == At(ts, c, s); }
    }
  }

  lemma {:induction false} AnonsMore(ts: Tables, a: nat, n: nat, m: nat)
    requires n <= m
    ensures Anons(ts, a, n) <= Anons(ts, a, m)
    decreases m
  {
    if n < m { AnonsMore(ts, a, n, m - 1); }
  }

  lemma OneLess(r: multiset<int>, a: multiset<int>, x: int, all: multiset<int>)
    requires r + a == all && a + multiset{x} <= all
    ensures x in r && (r - multiset{x}) + (a + multiset{x}) == all
  {
    assert (a + multiset{x})[x] <= (r + a)[x];
  }

  /** A table of level 2 hangs at a place of an amap. */
  predicate Hangs(ts: Tables, a: nat, i: nat, t: int) {
    a in ts.l3s && i < |ts.l3s[a]| && ts.l3s[a][i] == t && t in ts.l2s && |ts.l2s[t]| == WIDTH
  }

  lemma HangsApart(ts: Tables, own: Owners, a: nat, b: nat, i: nat, t: int, t2: int)
    requires Shaped(ts, own) && a != b && Hangs(ts, a, i, t) && Hangs(ts, b, i, t2)
    ensures t != t2
  {
    assert own.of2[ts.l3s[a][i]] == (a, i) && own.of2[ts.l3s[b][i]] == (b, i);
  }

  /** An empty entry of level 2 stands for slots that are empty and need no copy. */
  lemma SkipLevel1(ts: Tables, own: Owners, was: Tables, a: nat, b: nat, i: nat, j: nat, t: int)
    requires Shaped(ts, own) && Copied(ts, was, a, b, Page(i, j, 0)) && a in was.l3s && b !in was.l3s && i < WIDTH && j < WIDTH
    requires Hangs(ts, a, i, t) && ts.l2s[t][j] == NULL
    ensures Copied(ts, was, a, b, Page(i, j + 1, 0))
    ensures Anons(was, a, Page(i, j + 1, 0)) == Anons(was, a, Page(i, j, 0))
  {
    var n, m := Page(i, j, 0), Page(i, j + 1, 0);
    forall s | n <= PageOf(s) < m ensures At(was, a, s) == NULL {
      assert s.i == i && s.j == j;
      assert At(ts, a, s) == NULL;
    }
    SkipEmpty(ts, was, a, b, n, m);
  }

  /** Pages whose slots are empty need no copy. */
  lemma SkipEmpty(ts: Tables, was: Tables, a: nat, b: nat, n: nat, m: nat)
    requires Copied(ts, was, a, b, n) && n <= m <= REACH
    requires forall s :: n <= PageOf(s) < m ==> At(was, a, s) == NULL
    ensures Copied(ts, was, a, b, m) && Anons(was, a, m) == Anons(was, a, n)
  {
    hide At, IndexOf;
    forall p | n <= p < m ensures At(was, a, IndexOf(p)) == NULL {
      PageOfIndex(p);
    }
    AnonsSkip(was, a, n, m);
  }

  /** What does not change a slot does not change how far the copy is. */
  lemma SameCopied(ts: Tables, ts': Tables, was: Tables, a: nat, b: nat, n: nat)
    requires Copied(ts, was, a, b, n) && ts'.l3s.Keys == ts.l3s.Keys && forall c, s :: At(ts', c, s) == At(ts, c, s)
    ensures Copied(ts', was, a, b, n)
  {
    hide At;
  }

  lemma LinksOf(ts: Tables, own: Owners, a: nat, i: nat, j: nat, t: int)
    requires Shaped(ts, own) && a in ts.l3s && i < |ts.l3s[a]| && ts.l3s[a][i] == t != NULL && j < WIDTH
    ensures Hangs(ts, a, i, t) && (ts.l2s[t][j] != NULL ==> Links(ts, a, i, j, ts.l2s[t][j]))
  {
  }

  lemma JoinRefs(o: multiset<int>, a: multiset<int>, r: multiset<int>, b: multiset<int>, r': multiset<int>, c: multiset<int>)
    requires o + a == r + b && r + c == r' + a
    ensures o + c == r' + b
  {
    forall x ensures (o + c)[x] == (r' + b)[x] {
      assert (o + a)[x] == (r + b)[x] && (r + c)[x] == (r' + a)[x];
    }
  }

  /** A table of level 1 hangs at a place of an amap. */
  predicate Links(ts: Tables, a: nat, i: nat, j: nat, u: int) {
    && a in ts.l3s && i < |ts.l3s[a]| && ts.l3s[a][i] in ts.l2s && j < |ts.l2s[ts.l3s[a][i]]|
    && ts.l2s[ts.l3s[a][i]][j] == u && u in ts.l1s
  }

  lemma LinksAt(ts: Tables, own: Owners, a: nat, s: Index, u: int)
    requires Shaped(ts, own) && Links(ts, a, s.i, s.j, u)
    ensures Way1(ts, a, s) == u && u != NULL && |ts.l1s[u]| == WIDTH && At(ts, a, s) == ts.l1s[u][s.k]
  {
  }

  /** A store shows in one slot of one amap. */
  ghost predicate Stored(ts: Tables, ts': Tables, b: nat, s: Index, anon: int) {
    ts'.l3s == ts.l3s && forall c, q :: c in ts.l3s ==> At(ts', c, q) == if c == b && q == s then anon else At(ts, c, q)
  }

  lemma MoreRefs(o: multiset<int>, a: multiset<int>, r: multiset<int>, b: multiset<int>, x: int)
    requires o + a == r + b
    ensures o + (a + multiset{x}) == (r + multiset{x}) + b && o + (a + multiset{}) == r + b
  {
    assert a + multiset{} == a;
    assert o + (a + multiset{x}) == (o + a) + multiset{x};
    assert (r + multiset{x}) + b == (r + b) + multiset{x};
  }

  lemma CopiedAt(ts: Tables, was: Tables, a: nat, b: nat, s: Index)
    requires Copied(ts, was, a, b, PageOf(s)) && a in was.l3s && b !in was.l3s
    ensures At(ts, a, s) == At(was, a, s) && Stored(ts, ts, b, s, NULL)
  {
    hide At;
  }

  lemma AnonsNext(ts: Tables, a: nat, s: Index)
    ensures Anons(ts, a, PageOf(s) + 1) == Anons(ts, a, PageOf(s)) + (if At(ts, a, s) == NULL then multiset{} else multiset{At(ts, a, s)})
  {
    hide At, IndexOf;
    IndexOfPage(s);
  }

  /** One more slot is copied. */
  lemma NextCopied(ts: Tables, ts': Tables, was: Tables, a: nat, b: nat, s: Index, anon: int)
    requires Copied(ts, was, a, b, PageOf(s)) && Stored(ts, ts', b, s, anon)
    requires a in was.l3s && b !in was.l3s && anon == At(ts, a, s)
    ensures Copied(ts', was, a, b, PageOf(s) + 1)
  {
    hide At;
    forall q ensures At(ts', b, q) == if PageOf(q) < PageOf(s) + 1 then At(was, a, q) else NULL {
      if PageOf(q) == PageOf(s) { SamePage(q, s); }
    }
  }

  lemma Unmade(ts: Tables, a: nat, s: Index)
    requires (a in ts.l3s && |ts.l3s[a]| == 0) || Way2(ts, a, s) == NULL || Way1(ts, a, s) == NULL
    requires NULL !in ts.l2s && NULL !in ts.l1s
    ensures At(ts, a, s) == NULL && Way1(ts, a, s) == NULL
  {
  }

  lemma Made(ts: Tables, own: Owners, a: nat, s: Index)
    requires Shaped(ts, own) && a in ts.l3s && Way1(ts, a, s) != NULL
    ensures Way1(ts, a, s) in ts.l1s && |ts.l1s[Way1(ts, a, s)]| == WIDTH
  {
  }
}
