/**
 * The cart object of the client script: a dictionary from menu-item id to a
 * line `{item, qty}`, and the totals shown beside it.  This module holds the
 * value-level specification; the object updated in place is `Session.Session`.
 */
module Cart {

  import opened Wrappers
  import opened PropertyKeys
  import opened Catalog

  datatype Line = Line(item: MenuItem, qty: int)

  type Lines = map<string, Line>

  /**
   * The cart invariant: every stored line has a positive quantity and holds
   * the catalog item its key looks up to (one line per id, by construction).
   */
  ghost predicate WellFormed(catalog: seq<MenuItem>, lines: Lines) {
    CatalogOk(catalog) &&
    forall id :: id in lines ==> lines[id].qty > 0 && FindById(catalog, id) == Some(lines[id].item)
  }

  /** The quantity shown for an id: its line's quantity, or 0 without a line. */
  function QtyOf(lines: Lines, id: string): int {
    if id in lines then lines[id].qty else 0
  }

  /**
   * `changeQty(id, delta)` on the cart value.  Unknown ids are ignored, a
   * non-positive delta does not create a line, and a line whose quantity
   * drops to 0 or below is deleted.
   */
  function Changed(catalog: seq<MenuItem>, lines: Lines, id: string, delta: int): (r: Lines)
    ensures FindById(catalog, id).None? ==> r == lines
    ensures id !in lines && delta <= 0 ==> r == lines
    ensures FindById(catalog, id).Some? ==> (id in r <==> QtyOf(lines, id) + delta > 0)
    ensures FindById(catalog, id).Some? && (id in lines || delta > 0) && id in r ==>
      r[id].qty == QtyOf(lines, id) + delta
    ensures id in r && id !in lines ==> r[id].item == FindById(catalog, id).value
    ensures id in r && id in lines ==> r[id].item == lines[id].item
  {
    match FindById(catalog, id)
    case None => lines
    case Some(item) =>
      if id !in lines && delta <= 0 then lines
      else
        var line := if id in lines then lines[id] else Line(item, 0);
        var q := line.qty + delta;
        if q <= 0 then lines - {id} else lines[id := line.(qty := q)]
  }

  /** A change keeps the cart invariant. */
  lemma ChangedWellFormed(catalog: seq<MenuItem>, lines: Lines, id: string, delta: int)
    requires WellFormed(catalog, lines)
    ensures WellFormed(catalog, Changed(catalog, lines, id, delta))
  {
    var r := Changed(catalog, lines, id, delta);
    forall k | k in r ensures r[k].qty > 0 && FindById(catalog, k) == Some(r[k].item) {
      if k == id && FindById(catalog, id).Some? && (id in lines || delta > 0) {
        assert r[id].qty == QtyOf(lines, id) + delta;
      }
    }
  }

  /** The keys of a well-formed cart are catalog ids, hence array-index keys. */
  lemma WellFormedKeys(catalog: seq<MenuItem>, lines: Lines)
    requires WellFormed(catalog, lines)
    ensures AllIndexKeys(lines.Keys)
  {
    forall id | id in lines ensures IsIndexKey(id) {
      var item := FindById(catalog, id).value;
      var i :| 0 <= i < |catalog| && catalog[i] == item;
    }
  }

  /** The two totals of the cart panel. */
  datatype Measure = Quantity | Amount

  /** What a line adds to a total: its quantity, or unit price times quantity. */
  function Weight(m: Measure, line: Line): int {
    match m
    case Quantity => line.qty
    case Amount => line.item.price * line.qty
  }

  /** The sum of a measure over the lines, taken in `for…in` (ascending key) order. */
  ghost function SumBy(lines: Lines, m: Measure): int
    requires AllIndexKeys(lines.Keys)
    decreases |lines|
  {
    if lines == map[] then 0
    else
      var k := Smallest(lines.Keys);
      assert (lines - {k}).Keys == lines.Keys - {k};
      Weight(m, lines[k]) + SumBy(lines - {k}, m)
  }

  /** The item count in the cart badge: the sum of the quantities. */
  ghost function TotalQty(lines: Lines): int
    requires AllIndexKeys(lines.Keys)
  {
    SumBy(lines, Quantity)
  }

  /** The amount shown as the cart total: the sum of price times quantity. */
  ghost function TotalAmount(lines: Lines): int
    requires AllIndexKeys(lines.Keys)
  {
    SumBy(lines, Amount)
  }

  /** The sum does not depend on the visiting order: any line can be taken out first. */
  lemma {:induction false} SumByRemove(lines: Lines, j: string, m: Measure)
    requires AllIndexKeys(lines.Keys) && j in lines
    ensures AllIndexKeys((lines - {j}).Keys)
    ensures SumBy(lines, m) == Weight(m, lines[j]) + SumBy(lines - {j}, m)
    decreases |lines|
  {
    assert (lines - {j}).Keys == lines.Keys - {j};
    var k := Smallest(lines.Keys);
    if k != j {
      var rest := lines - {k};
      assert rest.Keys == lines.Keys - {k};
      SumByRemove(rest, j, m);
      assert IsSmallest(k, (lines - {j}).Keys);
      SmallestUnique(k, Smallest((lines - {j}).Keys), (lines - {j}).Keys);
      assert (lines - {j}) - {k} == rest - {j};
    }
  }

  /** The contribution of one key to a sum: the measure of its line, or 0 without one. */
  function At(lines: Lines, id: string, m: Measure): int {
    if id in lines then Weight(m, lines[id]) else 0
  }

  /** Two carts that differ at most at `id` have sums that differ by that key's contribution. */
  lemma SumByExcept(a: Lines, b: Lines, id: string, m: Measure)
    requires AllIndexKeys(a.Keys) && AllIndexKeys(b.Keys)
    requires a - {id} == b - {id}
    ensures SumBy(b, m) - At(b, id, m) == SumBy(a, m) - At(a, id, m)
  {
    if id in a {
      SumByRemove(a, id, m);
    } else {
      assert a - {id} == a;
    }
    if id in b {
      SumByRemove(b, id, m);
    } else {
      assert b - {id} == b;
    }
  }

  /** A change touches no key but `id`. */
  lemma ChangedOnlyAt(catalog: seq<MenuItem>, lines: Lines, id: string, delta: int)
    ensures Changed(catalog, lines, id, delta) - {id} == lines - {id}
  {
  }

  /**
   * After `changeQty(id, delta)` the displayed totals move by exactly the change
   * of that one line: nothing else is counted twice or dropped.
   */
  lemma ChangedTotals(catalog: seq<MenuItem>, lines: Lines, id: string, delta: int)
    requires WellFormed(catalog, lines)
    ensures var r := Changed(catalog, lines, id, delta);
      AllIndexKeys(r.Keys) &&
      TotalQty(r) == TotalQty(lines) - QtyOf(lines, id) + QtyOf(r, id) &&
      TotalAmount(r) == TotalAmount(lines) - At(lines, id, Amount) + At(r, id, Amount)
  {
    var r := Changed(catalog, lines, id, delta);
    ChangedWellFormed(catalog, lines, id, delta);
    WellFormedKeys(catalog, lines);
    WellFormedKeys(catalog, r);
    ChangedOnlyAt(catalog, lines, id, delta);
    assert TotalQty(r) == TotalQty(lines) - QtyOf(lines, id) + QtyOf(r, id) by {
      SumByExcept(lines, r, id, Quantity);
    }
    assert TotalAmount(r) == TotalAmount(lines) - At(lines, id, Amount) + At(r, id, Amount) by {
      SumByExcept(lines, r, id, Amount);
    }
  }

  /** With positive quantities the count is at least the number of lines, so it is 0 exactly for the empty cart. */
  lemma {:induction false} TotalQtyBounds(lines: Lines)
    requires AllIndexKeys(lines.Keys)
    requires forall id :: id in lines ==> lines[id].qty > 0
    ensures TotalQty(lines) >= |lines|
    ensures TotalQty(lines) == 0 <==> lines == map[]
    decreases |lines|
  {
    if lines != map[] {
      var k := Smallest(lines.Keys);
      var rest := lines - {k};
      assert rest.Keys == lines.Keys - {k};
      TotalQtyBounds(rest);
    }
  }
}
