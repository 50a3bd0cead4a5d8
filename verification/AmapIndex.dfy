/** How a page of an amap is found in its three levels of tables. */
module AmapIndex {
  const WIDTH: nat := 512

  /** The pages the three levels can tell apart: 2^27. */
  const REACH: nat := WIDTH * WIDTH * WIDTH

  datatype Digits = Digits(i: nat, j: nat, k: nat)

  /** One entry in a table of each level. */
  type Index = x: Digits | x.i < WIDTH && x.j < WIDTH && x.k < WIDTH witness Digits(0, 0, 0)

  /** The shifts and masks of `locked_amap_lookup`; higher bits are dropped. */
  function IndexOf(pg: int): Index {
    Digits(pg / (WIDTH * WIDTH) % WIDTH, pg / WIDTH % WIDTH, pg % WIDTH)
  }

  /** The page number with the digits of an index. */
  function PageOf(x: Index): (pg: nat)
    ensures pg < REACH
  {
    (x.i * WIDTH + x.j) * WIDTH + x.k
  }

  lemma DigitsOf(pg: int)
    ensures PageOf(IndexOf(pg)) == pg % REACH
  {
    var a, b := pg / WIDTH, pg / (WIDTH * WIDTH);
    assert b == a / WIDTH && pg == a * WIDTH + pg % WIDTH && a == b * WIDTH + a % WIDTH;
    var c := b / WIDTH;
    assert pg == c * REACH + PageOf(IndexOf(pg));
  }

  lemma SamePage(x: Index, y: Index)
    requires PageOf(x) == PageOf(y)
    ensures x == y
  {
  }

  /** Pages share a slot exactly when they are a multiple of 2^27 pages apart. */
  lemma Aliases(p: int, q: int)
    ensures IndexOf(p) == IndexOf(q) <==> p % REACH == q % REACH
  {
    hide IndexOf;
    DigitsOf(p);
    DigitsOf(q);
    if PageOf(IndexOf(p)) == PageOf(IndexOf(q)) { SamePage(IndexOf(p), IndexOf(q)); }
  }

  /** Pages less than 2^27 apart have slots of their own. */
  lemma Near(p: int, q: int)
    requires 0 - REACH < p - q < REACH
    ensures IndexOf(p) == IndexOf(q) <==> p == q
  {
    hide IndexOf;
    Aliases(p, q);
  }

  /** The page of an index, and the index of a page. */
  lemma IndexOfPage(x: Index)
    ensures IndexOf(PageOf(x)) == x
  {
    hide IndexOf;
    DigitsOf(PageOf(x));
    SamePage(IndexOf(PageOf(x)), x);
  }

  lemma PageOfIndex(n: nat)
    requires n < REACH
    ensures PageOf(IndexOf(n)) == n
  {
    hide IndexOf;
    DigitsOf(n);
  }

  /** Going through all indices by page number misses none. */
  lemma NextIndex(n: nat, x: Index)
    requires n < REACH && n <= PageOf(x) && x != IndexOf(n)
    ensures n + 1 <= PageOf(x)
  {
    hide IndexOf;
    PageOfIndex(n);
    if PageOf(x) == n { SamePage(x, IndexOf(n)); }
  }

  /** The pages of a range have slots of their own exactly when it is no longer
      than the tables reach. */
  lemma SlotsDistinct(lo: int, len: nat)
    ensures (forall p, q :: lo <= p < lo + len && lo <= q < lo + len && IndexOf(p) == IndexOf(q) ==> p == q) <==> len <= REACH
  {
    hide IndexOf;
    if len <= REACH {
      forall p, q | lo <= p < lo + len && lo <= q < lo + len && IndexOf(p) == IndexOf(q) ensures p == q { Near(p, q); }
    } else {
      Aliases(lo, lo + REACH);
    }
  }
}
