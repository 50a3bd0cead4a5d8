/** Run queues: ready masks, levels, and the order threads are taken in. */
module RunQueues {
  const LEVELS: nat := 32

  type Thread = nat

  // Ready masks ----------------------------------------------------------------------

  function Bit(i: nat): (b: bv32)
    requires i < LEVELS
  {
    1 << i
  }

  predicate Has(mask: bv32, i: nat)
    requires i < LEVELS
  {
    Meets(mask, Bit(i))
  }

  predicate Meets(a: bv32, b: bv32) {
    a & b != 0
  }

  function WithBit(mask: bv32, i: nat): bv32
    requires i < LEVELS
  {
    mask | Bit(i)
  }

  function WithoutBit(mask: bv32, i: nat): bv32
    requires i < LEVELS
  {
    mask & !Bit(i)
  }

  lemma BitsApart(i: nat, j: nat)
    requires i < LEVELS && j < LEVELS
    ensures Meets(Bit(i), Bit(j)) <==> i == j
  {
  }

  lemma MeetsOr(mask: bv32, a: bv32, c: bv32)
    ensures Meets(mask | a, c) <==> Meets(mask, c) || Meets(a, c)
  {
    Spread(c, mask, a);
    AndSwaps(mask, c);
    AndSwaps(a, c);
    AndSwaps(mask | a, c);
  }

  lemma AndSwaps(a: bv32, b: bv32)
    ensures a & b == b & a
  {
  }

  lemma Spread(mask: bv32, a: bv32, b: bv32)
    ensures mask & (a | b) != 0 <==> mask & a != 0 || mask & b != 0
  {
  }

  lemma Without(mask: bv32, a: bv32, c: bv32)
    ensures a & c == 0 ==> (mask & !a) & c == mask & c
    ensures (mask & !a) & a == 0
  {
  }

  lemma MeetsWithout(mask: bv32, a: bv32, c: bv32)
    ensures !Meets(a, c) ==> Meets(mask & !a, c) == Meets(mask, c)
    ensures !Meets(mask & !a, a)
  {
    Without(mask, a, c);
  }

  lemma MaskAdd(mask: bv32, i: nat, j: nat)
    requires i < LEVELS && j < LEVELS
    ensures Has(WithBit(mask, i), j) <==> i == j || Has(mask, j)
  {
    hide Bit, Meets;
    BitsApart(i, j);
    MeetsOr(mask, Bit(i), Bit(j));
  }

  lemma MaskRemove(mask: bv32, i: nat, j: nat)
    requires i < LEVELS && j < LEVELS
    ensures Has(WithoutBit(mask, i), j) <==> i != j && Has(mask, j)
  {
    hide Bit, Meets;
    BitsApart(i, j);
    MeetsWithout(mask, Bit(i), Bit(j));
  }

  /** The bits below `k`. */
  function Low(k: nat): bv32
    requires k <= LEVELS
  {
    if k == 0 then 0 else Low(k - 1) | Bit(k - 1)
  }

  lemma {:induction false} LowIs(k: nat)
    requires k < LEVELS
    ensures Low(k) == (1 << k) - 1
  {
    if k > 0 {
      LowIs(k - 1);
      NextLow(k - 1);
    }
  }

  lemma NextLow(k: nat)
    requires k < LEVELS - 1
    ensures (((1 as bv32) << k) - 1) | (1 << k) == (1 << (k + 1)) - 1
  {
  }

  lemma {:induction false} NoneBelow(mask: bv32, k: nat)
    requires k <= LEVELS && forall i :: 0 <= i < k ==> !Has(mask, i)
    ensures !Meets(mask, Low(k))
  {
    hide Bit, Meets;
    if k == 0 {
      MeetsNothing(mask);
    } else {
      NoneBelow(mask, k - 1);
      assert !Has(mask, k - 1);
      MeetsEither(mask, Low(k - 1), Bit(k - 1));
    }
  }

  lemma MeetsNothing(mask: bv32)
    ensures !Meets(mask, 0) && (!Meets(mask, 0xFFFF_FFFF) ==> mask == 0) && !Meets(0, mask)
  {
  }

  lemma MeetsEither(mask: bv32, a: bv32, b: bv32)
    ensures Meets(mask, a | b) <==> Meets(mask, a) || Meets(mask, b)
  {
    Spread(mask, a, b);
  }

  lemma MaskAny(mask: bv32)
    ensures mask != 0 <==> exists i :: 0 <= i < LEVELS && Has(mask, i)
  {
    MeetsNothing(mask);
    if mask == 0 {
      forall i | 0 <= i < LEVELS ensures !Has(mask, i) { MeetsNothing(Bit(i)); }
    } else if forall i :: 0 <= i < LEVELS ==> !Has(mask, i) {
      NoneBelow(mask, LEVELS);
      LowAll();
      assert false;
    }
  }

  lemma LowAll()
    ensures Low(LEVELS) == 0xFFFF_FFFF
  {
    LowIs(LEVELS - 1);
  }

  /** `31 - clz(mask)`: the highest bit, looking from `k` down. */
  function Highest(mask: bv32, k: nat): (r: int)
    requires k <= LEVELS
    ensures -1 <= r < k
    ensures r >= 0 ==> Has(mask, r)
    ensures forall i :: r < i < k ==> !Has(mask, i)
  {
    if k == 0 then -1 else if Has(mask, k - 1) then k - 1 else Highest(mask, k - 1)
  }

  // Queues ---------------------------------------------------------------------------

  /** The threads of the levels below `k`, highest level first. */
  function Flat(qs: seq<seq<Thread>>, k: nat): seq<Thread>
    requires k <= |qs|
  {
    if k == 0 then [] else qs[k - 1] + Flat(qs, k - 1)
  }

  /** Levels at or above `k` do not matter. */
  lemma {:induction false} FlatSame(qs: seq<seq<Thread>>, qs': seq<seq<Thread>>, k: nat)
    requires k <= |qs| && k <= |qs'| && qs[..k] == qs'[..k]
    ensures Flat(qs, k) == Flat(qs', k)
  {
    if k > 0 {
      assert qs[k - 1] == qs[..k][k - 1] && qs'[k - 1] == qs'[..k][k - 1];
      assert qs[..k - 1] == qs[..k][..k - 1] && qs'[..k - 1] == qs'[..k][..k - 1];
      FlatSame(qs, qs', k - 1);
    }
  }

  /** A new thread comes after all of its level and above, before all below. */
  lemma {:induction false} FlatInsert(qs: seq<seq<Thread>>, i: nat, t: Thread, k: nat)
    requires i < k <= |qs|
    ensures |Flat(qs, i)| <= |Flat(qs, k)|
    ensures
      var above := Flat(qs, k)[..|Flat(qs, k)| - |Flat(qs, i)|];
      Flat(qs, k) == above + Flat(qs, i) && Flat(qs[i := qs[i] + [t]], k) == above + [t] + Flat(qs, i)
  {
    var qs' := qs[i := qs[i] + [t]];
    if k == i + 1 {
      FlatSame(qs, qs', i);
      assert qs'[i] + Flat(qs, i) == qs[i] + [t] + Flat(qs, i);
    } else {
      FlatInsert(qs, i, t, k - 1);
      var below := Flat(qs, k - 1)[..|Flat(qs, k - 1)| - |Flat(qs, i)|];
      assert Flat(qs, k) == (qs[k - 1] + below) + Flat(qs, i);
      assert Flat(qs', k) == (qs[k - 1] + below) + [t] + Flat(qs, i);
      assert Flat(qs, k)[..|Flat(qs, k)| - |Flat(qs, i)|] == qs[k - 1] + below;
    }
  }

  /** The first thread of the highest level that has any is the first of all. */
  lemma {:induction false} FlatTake(qs: seq<seq<Thread>>, i: nat, k: nat)
    requires i < k <= |qs| && qs[i] != [] && forall j :: i < j < k ==> qs[j] == []
    ensures Flat(qs, k) == [qs[i][0]] + Flat(qs[i := qs[i][1..]], k)
  {
    if k == i + 1 {
      FlatSame(qs, qs[i := qs[i][1..]], i);
      assert qs[i] == [qs[i][0]] + qs[i][1..];
    } else {
      FlatTake(qs, i, k - 1);
    }
  }

  lemma {:induction false} FlatEmpty(qs: seq<seq<Thread>>, k: nat)
    requires k <= |qs|
    ensures Flat(qs, k) == [] <==> forall i :: 0 <= i < k ==> qs[i] == []
  {
    if k > 0 { FlatEmpty(qs, k - 1); }
  }
}
