/** A hash table with linear probing and tombstones. */
module HashTable {
  type Key = string

  /** Values are addresses; 0 is NULL and 1 marks a deleted entry. */
  type Address = nat

  const NULL: Address := 0
  const TOMB: Address := 1

  datatype Slot = Taken(key: Key, value: Address) | Vacant(value: Address)

  datatype Status = Success | Exists | OutOfMemory

  /** A slot where probing stops. */
  predicate Empty(s: Slot) {
    s.Vacant? && s.value != TOMB
  }

  /** The slot reached from `home` after `d` steps. */
  function Probe(cap: nat, home: nat, d: nat): (i: nat)
    requires home < cap && d <= cap
    ensures i < cap
  {
    if home + d < cap then home + d else home + d - cap
  }

  /** How many steps lead from one slot to another. */
  function Steps(cap: nat, home: nat, i: nat): (d: nat)
    requires home < cap && i < cap
    ensures d < cap && Probe(cap, home, d) == i
  {
    if home <= i then i - home else cap - home + i
  }

  /** Where a key belongs. */
  function Home(hash: Key -> nat, cap: nat, key: Key): (i: nat)
    requires cap > 0
    ensures i < cap
  {
    hash(key) % cap
  }

  /** Nothing empty in the first `d` slots a key is probed at. */
  ghost predicate Passable(es: seq<Slot>, home: nat, d: nat)
    requires home < |es| && d <= |es|
  {
    forall k: nat :: k < d ==> !Empty(es[Probe(|es|, home, k)])
  }

  /** A key that is stored is where probing finds it, and nowhere else. */
  ghost predicate Good(hash: Key -> nat, es: seq<Slot>) {
    && (forall i :: 0 <= i < |es| && es[i].Taken? ==>
          Passable(es, Home(hash, |es|, es[i].key), Steps(|es|, Home(hash, |es|, es[i].key), i)))
    && Once(es)
  }

  /** No key is stored twice. */
  ghost predicate Once(es: seq<Slot>) {
    forall i, j :: 0 <= i < |es| && 0 <= j < |es| && es[i].Taken? && es[j].Taken? && es[i].key == es[j].key ==> i == j
  }

  ghost predicate Stores(es: seq<Slot>, key: Key) {
    exists i :: 0 <= i < |es| && es[i].Taken? && es[i].key == key
  }

  /** The map a table stands for. */
  ghost function Contents(es: seq<Slot>): (m: map<Key, Address>)
    ensures forall key :: key in m <==> Stores(es, key)
  {
    var keys := set i | 0 <= i < |es| && es[i].Taken? :: es[i].key;
    map key | key in keys :: var i :| 0 <= i < |es| && es[i].Taken? && es[i].key == key; es[i].value
  }

  lemma ContentsAt(hash: Key -> nat, es: seq<Slot>, i: nat)
    requires Good(hash, es) && i < |es| && es[i].Taken?
    ensures es[i].key in Contents(es) && Contents(es)[es[i].key] == es[i].value
  {
    assert Stores(es, es[i].key);
  }

  /** The slot where a key is, or may be put. */
  ghost predicate PlaceOf(hash: Key -> nat, es: seq<Slot>, key: Key, i: nat) {
    && i < |es|
    && (Stores(es, key) ==> es[i].Taken? && es[i].key == key)
    && (!Stores(es, key) ==> es[i].Vacant? && Passable(es, Home(hash, |es|, key), Steps(|es|, Home(hash, |es|, key), i)))
  }

  /** Slots that are not empty: live keys and tombstones. */
  function Used(es: seq<Slot>): (n: nat)
    ensures n <= |es|
  {
    if es == [] then 0 else Used(es[..|es| - 1]) + (if Empty(es[|es| - 1]) then 0 else 1)
  }

  function Live(es: seq<Slot>): (n: nat)
    ensures n <= Used(es)
  {
    if es == [] then 0 else Live(es[..|es| - 1]) + (if es[|es| - 1].Taken? then 1 else 0)
  }

  lemma {:induction false} UsedUpdate(es: seq<Slot>, i: nat, s: Slot)
    requires i < |es|
    ensures Used(es[i := s]) == Used(es) - (if Empty(es[i]) then 0 else 1) + (if Empty(s) then 0 else 1)
  {
    var n := |es| - 1;
    if i == n {
      assert es[i := s][..n] == es[..n];
    } else {
      assert es[i := s][..n] == es[..n][i := s];
      UsedUpdate(es[..n], i, s);
    }
  }

  lemma {:induction false} UsedRoom(es: seq<Slot>)
    ensures Used(es) < |es| <==> exists i :: 0 <= i < |es| && Empty(es[i])
  {
    if es != [] {
      var n := |es| - 1;
      UsedRoom(es[..n]);
      forall i | 0 <= i < |es| && Empty(es[i]) ensures Used(es) < |es| {
        if i < n { assert Empty(es[..n][i]); }
      }
      if Used(es[..n]) < n {
        var i :| 0 <= i < n && Empty(es[..n][i]);
        assert Empty(es[i]);
      }
    }
  }

  lemma PassableUpdate(es: seq<Slot>, i: nat, s: Slot, home: nat, d: nat)
    requires i < |es| && home < |es| && d <= |es| && Passable(es, home, d) && !Empty(s)
    ensures Passable(es[i := s], home, d)
  {
  }

  /** Storing a key at its place keeps every other key reachable. */
  lemma PutKeeps(hash: Key -> nat, es: seq<Slot>, key: Key, value: Address, i: nat)
    requires Good(hash, es) && PlaceOf(hash, es, key, i)
    ensures Good(hash, es[i := Taken(key, value)])
    ensures Contents(es[i := Taken(key, value)]) == Contents(es)[key := value]
  {
    hide Passable, Home, Steps, Contents;
    var es' := es[i := Taken(key, value)];
    forall j | 0 <= j < |es'| && es'[j].Taken?
      ensures Passable(es', Home(hash, |es'|, es'[j].key), Steps(|es'|, Home(hash, |es'|, es'[j].key), j))
    {
      PassableUpdate(es, i, Taken(key, value), Home(hash, |es|, es'[j].key), Steps(|es|, Home(hash, |es|, es'[j].key), j));
    }
    assert Good(hash, es') by {
      assert forall j :: 0 <= j < |es| && j != i && es[j].Taken? ==> es[j].key != key;
    }
    forall k ensures Stores(es', k) <==> k == key || Stores(es, k) {
      StoresUpdate(es, i, Taken(key, value), k);
    }
    forall k | k in Contents(es') ensures Contents(es')[k] == Contents(es)[key := value][k] {
      var j :| 0 <= j < |es'| && es'[j].Taken? && es'[j].key == k;
      ContentsAt(hash, es', j);
      if j != i { ContentsAt(hash, es, j); }
    }
  }

  lemma StoresUpdate(es: seq<Slot>, i: nat, s: Slot, k: Key)
    requires i < |es| && (es[i].Taken? && s.Taken? ==> es[i].key == s.key)
    ensures s.Taken? ==> (Stores(es[i := s], k) <==> k == s.key || Stores(es, k))
  {
    var es' := es[i := s];
    if s.Taken? {
      if k == s.key { assert es'[i].key == k; }
      if Stores(es, k) {
        var j :| 0 <= j < |es| && es[j].Taken? && es[j].key == k;
        assert es'[j].Taken? && es'[j].key == k;
      }
    }
  }

  lemma StoresDelete(hash: Key -> nat, es: seq<Slot>, i: nat, k: Key)
    requires Good(hash, es) && i < |es| && es[i].Taken?
    ensures Stores(es[i := Vacant(TOMB)], k) <==> k != es[i].key && Stores(es, k)
  {
    hide Passable;
    var es' := es[i := Vacant(TOMB)];
    if k != es[i].key && Stores(es, k) {
      var j :| 0 <= j < |es| && es[j].Taken? && es[j].key == k;
      assert es'[j].Taken? && es'[j].key == k;
    }
    if Stores(es', k) {
      var j :| 0 <= j < |es'| && es'[j].Taken? && es'[j].key == k;
      assert es[j].Taken? && es[j].key == k;
    }
  }

  /** A tombstone removes one key and cuts no probing path. */
  lemma DeleteKeeps(hash: Key -> nat, es: seq<Slot>, i: nat)
    requires Good(hash, es) && i < |es| && es[i].Taken?
    ensures Good(hash, es[i := Vacant(TOMB)])
    ensures Contents(es[i := Vacant(TOMB)]) == Contents(es) - {es[i].key}
  {
    hide Passable, Home, Steps, Contents;
    var es' := es[i := Vacant(TOMB)];
    forall j | 0 <= j < |es'| && es'[j].Taken?
      ensures Passable(es', Home(hash, |es'|, es'[j].key), Steps(|es'|, Home(hash, |es'|, es'[j].key), j))
    {
      PassableUpdate(es, i, Vacant(TOMB), Home(hash, |es|, es[j].key), Steps(|es|, Home(hash, |es|, es[j].key), j));
    }
    forall k ensures Stores(es', k) <==> k != es[i].key && Stores(es, k) {
      StoresDelete(hash, es, i, k);
    }
    forall k | k in Contents(es') ensures Contents(es')[k] == Contents(es)[k] {
      var j :| 0 <= j < |es'| && es'[j].Taken? && es'[j].key == k;
      ContentsAt(hash, es', j);
      ContentsAt(hash, es, j);
    }
  }

  /** Without an empty slot, probing for an absent key stops nowhere. */
  lemma ProbingEnds(es: seq<Slot>, home: nat, key: Key)
    requires home < |es|
    ensures (exists d: nat :: d < |es| && Stops(es[Probe(|es|, home, d)], key)) <==> Used(es) < |es| || Stores(es, key)
  {
    UsedRoom(es);
    if i :| 0 <= i < |es| && Stops(es[i], key) {
      assert Stops(es[Probe(|es|, home, Steps(|es|, home, i))], key);
    }
    if d: nat :| d < |es| && Stops(es[Probe(|es|, home, d)], key) {
      var i := Probe(|es|, home, d);
      assert Empty(es[i]) || (es[i].Taken? && es[i].key == key);
    }
    if Stores(es, key) {
      var i :| 0 <= i < |es| && es[i].Taken? && es[i].key == key;
      assert Stops(es[i], key);
    }
    if Used(es) < |es| {
      var i :| 0 <= i < |es| && Empty(es[i]);
      assert Stops(es[i], key);
    }
  }

  /** Where `find_entry` leaves its loop. */
  predicate Stops(s: Slot, key: Key) {
    Empty(s) || (s.Taken? && s.key == key)
  }

  lemma StepsProbe(cap: nat, home: nat, d: nat)
    requires home < cap && d < cap
    ensures Steps(cap, home, Probe(cap, home, d)) == d
    ensures (Probe(cap, home, d) + 1) % cap == Probe(cap, home, d + 1)
  {
    if home + d + 1 == cap { assert cap % cap == 0; }
  }

  /** At the first stop a key is found, or is not stored at all. */
  lemma FirstStop(hash: Key -> nat, es: seq<Slot>, key: Key, d: nat)
    requires es != [] && Good(hash, es) && d < |es|
    requires
      var home := Home(hash, |es|, key);
      Stops(es[Probe(|es|, home, d)], key) && (forall k: nat :: k < d ==> !Stops(es[Probe(|es|, home, k)], key))
    ensures es[Probe(|es|, Home(hash, |es|, key), d)].Taken? <==> Stores(es, key)
  {
    var home := Home(hash, |es|, key);
    var at := Probe(|es|, home, d);
    if es[at].Taken? { assert Stores(es, key); }
    if Stores(es, key) {
      var j :| 0 <= j < |es| && es[j].Taken? && es[j].key == key;
      var s := Steps(|es|, home, j);
      assert Passable(es, home, s);
      assert Stops(es[Probe(|es|, home, s)], key);
    }
  }

  class Table {
    const hash: Key -> nat
    var count: nat
    var entries: array<Slot>

    ghost predicate Valid()
      reads this, entries
    {
      && Good(hash, entries[..]) && Used(entries[..]) <= count
      && (count < entries.Length || (count == 0 && entries.Length == 0))
    }

    ghost function Map(): map<Key, Address>
      reads this, entries
    {
      Contents(entries[..])
    }

    /** `ht_init` */
    constructor (hash: Key -> nat)
      ensures Valid() && fresh(entries) && this.hash == hash && Map() == map[] && entries.Length == 0
    {
      this.hash := hash;
      count := 0;
      entries := new Slot[0];
    }

    /** `find_entry`: the entry of a key, or the first free one on its path. */
    method FindEntry(es: array<Slot>, key: Key) returns (i: nat)
      requires Good(hash, es[..]) && Used(es[..]) < es.Length
      ensures PlaceOf(hash, es[..], key, i)
    {
      hide Good, Used, Contents;
      var cap := es.Length;
      ghost var home, d, t := Home(hash, cap, key), 0, 0;
      ProbingEnds(es[..], home, key);
      var index := hash(key) % cap;
      var tombstone := -1;
      while true
        invariant d < cap && index == Probe(cap, home, d)
        invariant forall k: nat :: k < d ==> !Stops(es[..][Probe(cap, home, k)], key)
        invariant -1 <= tombstone && (tombstone >= 0 ==> t < d && tombstone == Probe(cap, home, t) && es[tombstone].Vacant?)
        decreases cap - d
      {
        if es[index].Vacant? {
          if es[index].value == TOMB {
            if tombstone < 0 { tombstone, t := index, d; }
          } else {
            FirstStop(hash, es[..], key, d);
            StepsProbe(cap, home, d);
            if tombstone >= 0 { StepsProbe(cap, home, t); }
            i := if tombstone >= 0 then tombstone else index;
            return;
          }
        } else if es[index].key == key {
          FirstStop(hash, es[..], key, d);
          i := index;
          return;
        }
        assert !Stops(es[..][Probe(cap, home, d)], key);
        assert d + 1 < cap;
        StepsProbe(cap, home, d);
        index := (index + 1) % cap;
        d := d + 1;
      }
    }

    /** `ht_resize`: a new array with the same entries and no tombstones. */
    method Resize(newCap: nat, room: bool) returns (status: Status)
      requires Valid() && Live(entries[..]) < newCap
      modifies this
      ensures Valid() && Map() == old(Map()) && (entries == old(entries) || fresh(entries))
      ensures status == (if room then Success else OutOfMemory)
      ensures room ==> entries.Length == newCap && count == Live(old(entries[..]))
      ensures !room ==> entries == old(entries) && count == old(count)
    {
      if !room { return OutOfMemory; }
      var es := new Slot[newCap](_ => Vacant(NULL));
      count := 0;
      NothingStored(hash, es[..]);
      assert entries[..0] == [];
      for i := 0 to entries.Length
        modifies `count, es
        invariant Good(hash, es[..]) && Used(es[..]) == count == Live(entries[..i])
        invariant Contents(es[..]) == Contents(entries[..i]) && NoTombs(es[..])
      {
        hide Good, Used, Live, Contents, PlaceOf;
        MoveEntry(es, i);
      }
      assert entries[..entries.Length] == entries[..];
      entries := es;
      status := Success;
    }

    /** One round of `ht_resize`. */
    method MoveEntry(es: array<Slot>, i: nat)
      requires Good(hash, entries[..]) && i < entries.Length && es != entries
      requires Good(hash, es[..]) && Used(es[..]) == count == Live(entries[..i])
      requires Contents(es[..]) == Contents(entries[..i]) && Live(entries[..]) < es.Length && NoTombs(es[..])
      modifies `count, es
      ensures Good(hash, es[..]) && Used(es[..]) == count == Live(entries[..i + 1])
      ensures Contents(es[..]) == Contents(entries[..i + 1]) && NoTombs(es[..])
    {
      hide Good, Used, Contents;
      ghost var all := entries[..];
      Prefix(hash, all, i);
      if entries[i].Vacant? { return; }
      var key := entries[i].key;
      var dest := FindEntry(es, key);
      PutKeeps(hash, es[..], key, entries[i].value, dest);
      UsedUpdate(es[..], dest, Taken(key, entries[i].value));
      es[dest] := Taken(key, entries[i].value);
      count := count + 1;
    }

    /** One entry more would load the table above three quarters. */
    ghost predicate Grows()
      reads this
    {
      4 * count + 4 > 3 * entries.Length
    }

    /** `ht_set`; the flags say whether memory was found. */
    method Set(key: Key, value: Address, overwrite: bool, room: bool, keyRoom: bool) returns (status: Status)
      requires Valid()
      modifies this, entries
      ensures Valid() && (entries == old(entries) || fresh(entries))
      ensures Map() == if status == Success then old(Map())[key := value] else old(Map())
      ensures status.Exists? <==> (old(Grows()) ==> room) && key in old(Map()) && !overwrite
      ensures status.Success? <==> (old(Grows()) ==> room) && keyRoom && (key in old(Map()) ==> overwrite)
      ensures entries.Length == if old(Grows()) && room then (if old(entries.Length) == 0 then 16 else 2 * old(entries.Length)) else old(entries.Length)
      ensures status.OutOfMemory? || count * 4 <= entries.Length * 3
    {
      hide Good, Used, Contents;
      if (count + 1) * 4 > entries.Length * 3 {
        LiveUsed(entries[..]);
        var newCap := if entries.Length == 0 then 16 else entries.Length * 2;
        var res := Resize(newCap, room);
        if res != Success { return res; }
      }
      ghost var es := entries[..];
      var i := FindEntry(entries, key);
      var newKey := entries[i].Vacant?;
      if !newKey && !overwrite { return Exists; }
      PutKeeps(hash, es, key, value, i);
      UsedUpdate(es, i, Taken(key, value));
      if newKey && entries[i].value != TOMB { count := count + 1; }
      if !keyRoom { return OutOfMemory; }
      entries[i] := Taken(key, value);
      assert entries[..] == es[i := Taken(key, value)];
      status := Success;
    }

    /** `ht_get`; NULL for what is not there. */
    method Get(key: Key) returns (value: Address)
      requires Valid()
      ensures value == if key in Map() then Map()[key] else NULL
    {
      hide Good, Used, Contents;
      if count == 0 {
        NoneUsed(entries[..]);
        return NULL;
      }
      var i := FindEntry(entries, key);
      if entries[i].Vacant? { return NULL; }
      ContentsAt(hash, entries[..], i);
      value := entries[i].value;
    }

    /** `ht_del`; whether the key was there. */
    method Delete(key: Key) returns (found: bool)
      requires Valid()
      modifies entries
      ensures Valid() && Map() == old(Map()) - {key} && found == (key in old(Map()))
    {
      hide Good, Used, Contents;
      ghost var es := entries[..];
      if count == 0 {
        NoneUsed(es);
        assert Map() == Map() - {key};
        return false;
      }
      var i := FindEntry(entries, key);
      if entries[i].Vacant? {
        assert Map() == Map() - {key};
        return false;
      }
      DeleteKeeps(hash, es, i);
      UsedUpdate(es, i, Vacant(TOMB));
      entries[i] := Vacant(TOMB);
      assert entries[..] == es[i := Vacant(TOMB)];
      found := true;
    }
  }

  lemma {:induction false} NoneUsed(es: seq<Slot>)
    requires Used(es) == 0
    ensures Contents(es) == map[]
  {
    forall key ensures !Stores(es, key) { NoneStored(es, key); }
  }

  lemma {:induction false} NoneStored(es: seq<Slot>, key: Key)
    requires Used(es) == 0
    ensures !Stores(es, key)
  {
    if es != [] {
      var n := |es| - 1;
      NoneStored(es[..n], key);
      if i :| 0 <= i < |es| && es[i].Taken? && es[i].key == key {
        assert i < n ==> es[..n][i].key == key;
      }
    }
  }

  lemma {:induction false} AllEmpty(es: seq<Slot>)
    requires forall i :: 0 <= i < |es| ==> Empty(es[i])
    ensures Used(es) == 0
  {
    if es != [] { AllEmpty(es[..|es| - 1]); }
  }

  lemma NothingStored(hash: Key -> nat, es: seq<Slot>)
    requires forall i :: 0 <= i < |es| ==> es[i] == Vacant(NULL)
    ensures Good(hash, es) && Used(es) == 0 && Contents(es) == map[] && Contents([]) == map[]
  {
    AllEmpty(es);
    NoneUsed(es);
    NoneUsed([]);
  }

  lemma LiveUsed(es: seq<Slot>)
    ensures Live(es) <= Used(es)
  {
  }

  lemma {:induction false} LivePrefix(es: seq<Slot>, i: nat)
    requires i <= |es|
    ensures Live(es[..i]) <= Live(es)
    decreases |es|
  {
    if i < |es| {
      assert es[..|es| - 1][..i] == es[..i];
      LivePrefix(es[..|es| - 1], i);
    } else {
      assert es[..i] == es;
    }
  }

  predicate NoTombs(es: seq<Slot>) {
    forall i :: 0 <= i < |es| ==> es[i].Taken? || es[i] == Vacant(NULL)
  }

  lemma PrefixStores(es: seq<Slot>, i: nat, key: Key)
    requires i < |es|
    ensures Stores(es[..i + 1], key) <==> Stores(es[..i], key) || (es[i].Taken? && es[i].key == key)
  {
    var a, b := es[..i], es[..i + 1];
    assert b[i] == es[i] && b[..i] == a;
    if Stores(a, key) {
      var j :| 0 <= j < i && a[j].Taken? && a[j].key == key;
      assert b[j] == a[j];
    }
    if Stores(b, key) {
      var j :| 0 <= j <= i && b[j].Taken? && b[j].key == key;
      assert j < i ==> a[j] == b[j];
    }
  }

  lemma OnceAt(es: seq<Slot>, i: nat)
    requires Once(es) && i < |es| && es[i].Taken?
    ensures es[i].key in Contents(es) && Contents(es)[es[i].key] == es[i].value
  {
    assert Stores(es, es[i].key);
  }

  lemma OncePrefix(es: seq<Slot>, i: nat)
    requires Once(es) && i < |es|
    ensures Once(es[..i]) && Once(es[..i + 1]) && (es[i].Taken? ==> !Stores(es[..i], es[i].key))
  {
  }

  lemma LiveStep(es: seq<Slot>, i: nat)
    requires i < |es|
    ensures Live(es[..i + 1]) == Live(es[..i]) + (if es[i].Taken? then 1 else 0) <= Live(es)
  {
    assert es[..i + 1][..i] == es[..i];
    LivePrefix(es, i + 1);
  }

  /** What one more slot adds to the map of the first ones. */
  lemma Prefix(hash: Key -> nat, es: seq<Slot>, i: nat)
    requires Good(hash, es) && i < |es|
    ensures es[i].Vacant? ==> Contents(es[..i + 1]) == Contents(es[..i]) && Live(es[..i + 1]) == Live(es[..i])
    ensures es[i].Taken? ==> !Stores(es[..i], es[i].key) && Contents(es[..i + 1]) == Contents(es[..i])[es[i].key := es[i].value]
    ensures es[i].Taken? ==> Live(es[..i + 1]) == Live(es[..i]) + 1 <= Live(es)
  {
    assert Once(es);
    hide Good, Once, Stores, Passable, Live, Contents;
    var a, b := es[..i], es[..i + 1];
    assert b[i] == es[i] && b[..i] == a;
    LiveStep(es, i);
    OncePrefix(es, i);
    var m := if es[i].Taken? then Contents(a)[es[i].key := es[i].value] else Contents(a);
    forall key ensures key in Contents(b) <==> key in m { PrefixStores(es, i, key); }
    forall key | key in Contents(b) ensures Contents(b)[key] == m[key] {
      PrefixValue(a, b, i, key);
    }
  }

  lemma PrefixValue(a: seq<Slot>, b: seq<Slot>, i: nat, key: Key)
    requires |b| == i + 1 && b[..i] == a && Once(a) && Once(b) && Stores(b, key)
    ensures b[i].Taken? && b[i].key == key ==> Contents(b)[key] == b[i].value
    ensures !(b[i].Taken? && b[i].key == key) ==> Stores(a, key) && Contents(b)[key] == Contents(a)[key]
  {
    hide Contents;
    var j :| 0 <= j <= i && b[j].Taken? && b[j].key == key;
    OnceAt(b, j);
    if j < i {
      assert a[j] == b[j];
      OnceAt(a, j);
    }
  }
}
