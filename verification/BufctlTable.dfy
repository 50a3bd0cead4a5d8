/** The hash table that leads from the address of a large object to its slab. */
module BufctlTable {
  datatype Bufctl = Bufctl(base: nat, slab: nat)

  predicate IsPow2(n: nat) {
    n == 1 || (n > 1 && n % 2 == 0 && IsPow2(n / 2))
  }

  /** 1 shifted by `next_ilog2`: the power of two that holds `n`, at least 2. */
  function RoundUp(n: nat): (p: nat)
    ensures IsPow2(p) && n <= p && 2 <= p && (p < 2 * n || p == 2)
  {
    if n <= 2 then 2 else 2 * RoundUp((n + 1) / 2)
  }

  ghost predicate Distinct(s: seq<Bufctl>) {
    forall i, j :: 0 <= i < j < |s| ==> s[i].base != s[j].base
  }

  ghost predicate InMap(m: map<nat, nat>, b: Bufctl) {
    b.base in m && m[b.base] == b.slab
  }

  lemma InFront(s: seq<Bufctl>, b: Bufctl)
    requires Distinct(s) && forall x :: x in s ==> x.base != b.base
    ensures Distinct([b] + s) && forall x :: x in [b] + s <==> x == b || x in s
  {
  }

  class Table {
    const hash: nat -> nat
    var entryCount: nat
    var buckets: array<seq<Bufctl>>
    ghost var contents: map<nat, nat>

    /** `hash_index`, with a mask for a number of buckets that is a power of two. */
    function Index(base: nat, n: nat): (i: nat)
      requires n > 0
      ensures i < n
    {
      hash(base) % n
    }

    /** Chains that hold exactly the entries of a map, each in its bucket. */
    ghost predicate Holds(bs: array<seq<Bufctl>>, m: map<nat, nat>)
      reads bs
    {
      && (forall i :: 0 <= i < bs.Length ==> Distinct(bs[i]))
      && (forall i, b :: 0 <= i < bs.Length && b in bs[i] ==> Index(b.base, bs.Length) == i && InMap(m, b))
      && (bs.Length > 0 ==> forall b :: InMap(m, b) ==> b in bs[Index(b.base, bs.Length)])
    }

    ghost predicate Valid()
      reads this, buckets
    {
      && Holds(buckets, contents) && entryCount == |contents| && (buckets.Length == 0 ==> contents == map[])
      && (buckets.Length > 0 ==> IsPow2(buckets.Length))
    }

    constructor (hash: nat -> nat)
      ensures Valid() && contents == map[] && this.hash == hash && fresh(buckets)
    {
      this.hash := hash;
      entryCount := 0;
      buckets := new seq<Bufctl>[0];
      contents := map[];
    }

    /** `hashtable_reinsert` */
    method Reinsert(bs: array<seq<Bufctl>>, b: Bufctl, ghost m: map<nat, nat>)
      requires bs.Length > 0 && Holds(bs, m) && b.base !in m
      modifies bs
      ensures Holds(bs, m[b.base := b.slab])
    {
      hide Distinct, Index;
      var i := Index(b.base, bs.Length);
      assert forall x :: x in bs[i] ==> x.base in m by { assert forall x :: x in bs[i] ==> InMap(m, x); }
      InFront(bs[i], b);
      bs[i] := [b] + bs[i];
    }

    /** `hashtable_resize`: the same entries in another number of buckets. */
    method Resize(newSize: nat)
      requires Valid() && IsPow2(newSize)
      modifies this`buckets, buckets
      ensures Valid() && buckets.Length == newSize && (buckets == old(buckets) || fresh(buckets))
    {
      if buckets.Length == newSize { return; }
      var bs := new seq<Bufctl>[newSize](_ => []);
      ghost var moved: map<nat, nat> := map[];
      for i := 0 to buckets.Length
        modifies buckets, bs
        invariant Holds(bs, moved) && Split(buckets, moved, contents)
        invariant forall k :: 0 <= k < i ==> buckets[k] == []
      {
        while buckets[i] != []
          invariant Holds(bs, moved) && Split(buckets, moved, contents)
          invariant forall k :: 0 <= k < i ==> buckets[k] == []
          decreases |buckets[i]|
        {
          moved := MoveFirst(bs, i, moved);
        }
      }
      AllMoved(buckets, moved, contents);
      buckets := bs;
    }

    /** The first entry of a chain goes over to the new ones. */
    method MoveFirst(bs: array<seq<Bufctl>>, i: nat, ghost moved: map<nat, nat>) returns (ghost moved': map<nat, nat>)
      requires bs != buckets && bs.Length > 0 && i < buckets.Length && buckets[i] != []
      requires Holds(bs, moved) && Split(buckets, moved, contents)
      modifies buckets, bs
      ensures Holds(bs, moved') && Split(buckets, moved', contents) && |buckets[i]| < |old(buckets[i])|
      ensures forall k :: 0 <= k < buckets.Length && k != i ==> buckets[k] == old(buckets[k])
    {
      var b := buckets[i][0];
      FrontMoved(buckets[i], b);
      buckets[i] := buckets[i][1..];
      Reinsert(bs, b, moved);
      moved' := moved[b.base := b.slab];
    }

    lemma AllMoved(bs: array<seq<Bufctl>>, moved: map<nat, nat>, all: map<nat, nat>)
      requires Split(bs, moved, all) && forall k :: 0 <= k < bs.Length ==> bs[k] == []
      ensures moved == all
    {
      forall base | base in all ensures base in moved && moved[base] == all[base] {
        assert InMap(all, Bufctl(base, all[base]));
        assert InMap(moved, Bufctl(base, all[base]));
      }
      forall base | base in moved ensures base in all {
        assert InMap(moved, Bufctl(base, moved[base]));
      }
    }

    /** Entries are in the old chains or moved, not both. */
    ghost predicate Split(bs: array<seq<Bufctl>>, moved: map<nat, nat>, all: map<nat, nat>)
      reads bs
    {
      && (forall i :: 0 <= i < bs.Length ==> Distinct(bs[i]))
      && (forall i, b :: 0 <= i < bs.Length && b in bs[i] ==> Index(b.base, bs.Length) == i && InMap(all, b) && b.base !in moved)
      && (forall b :: InMap(moved, b) ==> InMap(all, b))
      && (forall b :: InMap(all, b) && bs.Length > 0 ==> InMap(moved, b) || b in bs[Index(b.base, bs.Length)])
      && (bs.Length == 0 ==> all == map[])
    }

    /** `hashtable_lookup` */
    method Lookup(base: nat) returns (b: Bufctl)
      requires Valid() && base in contents
      ensures b == Bufctl(base, contents[base])
    {
      var i := Index(base, buckets.Length);
      var k := 0;
      assert InMap(contents, Bufctl(base, contents[base]));
      while buckets[i][k].base != base
        invariant k < |buckets[i]| && Bufctl(base, contents[base]) in buckets[i][k..]
        decreases |buckets[i]| - k
      {
        k := k + 1;
      }
      b := buckets[i][k];
      assert InMap(contents, b);
    }

    /** `hashtable_insert` */
    method Insert(b: Bufctl)
      requires Valid() && b.base !in contents
      modifies this, buckets
      ensures Valid() && contents == old(contents)[b.base := b.slab] && (buckets == old(buckets) || fresh(buckets))
    {
      if buckets.Length == 0 {
        assert IsPow2(8);
        Resize(8);
      } else if entryCount * 1000 / buckets.Length > 800 {
        Resize(buckets.Length * 2);
      }
      Reinsert(buckets, b, contents);
      contents := contents[b.base := b.slab];
      entryCount := entryCount + 1;
    }

    /** `SLIST_REMOVE` on the chain of an address. */
    method Unlink(bs: array<seq<Bufctl>>, base: nat)
      requires bs.Length > 0 && Holds(bs, contents) && base in contents
      modifies bs
      ensures Holds(bs, contents - {base})
    {
      hide Dropped, Distinct;
      var i := Index(base, bs.Length);
      assert Distinct(bs[i]);
      bs[i] := Dropped(bs[i], base);
    }

    /** `hashtable_remove` */
    method Remove(base: nat)
      requires Valid() && base in contents
      modifies this, buckets
      ensures Valid() && contents == old(contents) - {base} && (buckets == old(buckets) || fresh(buckets))
    {
      assert InMap(contents, Bufctl(base, contents[base]));
      Unlink(buckets, base);
      contents := contents - {base};
      entryCount := entryCount - 1;
      if buckets.Length > 8 && entryCount * 1000 / buckets.Length < 250 {
        var newSize := if RoundUp(entryCount * 2) > 8 then RoundUp(entryCount * 2) else 8;
        assert IsPow2(8);
        if newSize < buckets.Length { Resize(newSize); }
      }
    }
  }

  /** A chain without the entry of an address. */
  function Dropped(s: seq<Bufctl>, base: nat): (r: seq<Bufctl>)
    ensures forall b :: b in r ==> b in s
    ensures Distinct(s) ==> Distinct(r) && (forall b :: b in r <==> b in s && b.base != base)
  {
    if s == [] then [] else if s[0].base == base then s[1..] else [s[0]] + Dropped(s[1..], base)
  }

  lemma FrontMoved(s: seq<Bufctl>, b: Bufctl)
    requires s != [] && s[0] == b && Distinct(s)
    ensures Distinct(s[1..]) && (forall x :: x in s[1..] <==> x in s && x.base != b.base) && b in s
  {
    forall x ensures x in s[1..] <==> x in s && x.base != b.base {
      if x in s[1..] {
        var k :| 0 <= k < |s[1..]| && s[1..][k] == x;
        assert s[k + 1] == x;
      }
      if x in s && x.base != b.base {
        var k :| 0 <= k < |s| && s[k] == x;
        assert s[1..][k - 1] == x;
      }
    }
  }
}
