/** The fee calculation behind the "Calculate Fees" button: the catalog prices
    of the selected ids are summed, a discount chosen by the number of
    selected entries is taken off, and 15% VAT is added. The catalog is a
    parameter; the screen always passes its fixed COURSES. */
module Fees {
  import opened Catalog
  import opened Selection

  const VAT_RATE: real := 0.15

  /** What one selected id adds to the base sum: the price of the course
      `find` returns, or 0 when no course has that id. */
  function PriceIn(cs: seq<Course>, id: int): real {
    match Find(cs, id)
    case Some(c) => c.price
    case None => 0.0
  }

  /** An id no course has adds 0; in a catalog with unique ids, an id a course
      has adds exactly that course's price. */
  lemma PriceInSpec(cs: seq<Course>, id: int)
    ensures (forall i :: 0 <= i < |cs| ==> cs[i].id != id) ==> PriceIn(cs, id) == 0.0
    ensures DistinctIds(cs) ==> forall i :: 0 <= i < |cs| && cs[i].id == id ==> PriceIn(cs, id) == cs[i].price
  {
    if DistinctIds(cs) {
      forall i | 0 <= i < |cs| && cs[i].id == id ensures PriceIn(cs, id) == cs[i].price {
        FindFirst(cs, id, i);
      }
    }
  }

  /** No course of `cs` has a negative price. */
  ghost predicate PricesNonNegative(cs: seq<Course>) {
    forall i :: 0 <= i < |cs| ==> 0.0 <= cs[i].price
  }

  /** No course of `cs` costs less than 0 or more than `cap`. */
  ghost predicate PricesWithin(cs: seq<Course>, cap: real) {
    0.0 <= cap && forall i :: 0 <= i < |cs| ==> 0.0 <= cs[i].price <= cap
  }

  /** The price list the screen shows: 1500 for ids 1 to 4, 750 for ids 5
      to 7, nothing for any other id. */
  function ListedPrice(id: int): real {
    if 1 <= id <= 4 then 1500.0 else if 5 <= id <= 7 then 750.0 else 0.0
  }

  /** Looking an id up in `cs` gives its listed price, for every id. */
  ghost predicate ListsPrices(cs: seq<Course>) {
    forall id :: PriceIn(cs, id) == ListedPrice(id)
  }

  /** The fixed catalog read as a price list: ids 1 to 4 cost 1500, ids 5 to
      7 cost 750, and every other id costs nothing. */
  lemma PriceTable(id: int)
    ensures PriceIn(COURSES, id) == ListedPrice(id)
  {
    FindInCatalog(id);
    CatalogTable();
  }

  /** PriceTable for every id at once. */
  lemma CatalogListsPrices()
    ensures ListsPrices(COURSES)
  {
    forall id ensures PriceIn(COURSES, id) == ListedPrice(id) {
      PriceTable(id);
    }
  }

  /** The base sum: the selection folded from the left, each id adding its
      catalog price (0 for an id the catalog does not know). */
  function BaseSum(cs: seq<Course>, sel: seq<int>): (b: real)
    ensures PricesNonNegative(cs) ==> 0.0 <= b
  {
    if sel == [] then 0.0
    else BaseSum(cs, sel[..|sel| - 1]) + PriceIn(cs, sel[|sel| - 1])
  }

  /** When no price exceeds `cap`, no entry adds more than `cap`. */
  lemma BaseSumAtMost(cs: seq<Course>, sel: seq<int>, cap: real)
    requires PricesWithin(cs, cap)
    ensures BaseSum(cs, sel) <= cap * |sel| as real
  {
    BaseSumAtMostScaled(cs, sel, cap);
    ScaledIsProduct(cap, |sel|);
  }

  /** `cap` added up `n` times: the bound of BaseSumAtMost in a linear form,
      which its inductive proof goes through. */
  function Scaled(cap: real, n: nat): real {
    if n == 0 then 0.0 else Scaled(cap, n - 1) + cap
  }

  /** Adding `cap` up `n` times is multiplying it by `n`. */
  lemma {:induction false} ScaledIsProduct(cap: real, n: nat)
    ensures Scaled(cap, n) == cap * n as real
  {
    if n > 0 {
      ScaledIsProduct(cap, n - 1);
      assert cap * n as real == cap * (n - 1) as real + cap;
    }
  }

  /** The induction behind BaseSumAtMost, one `cap` per entry. */
  lemma {:induction false} BaseSumAtMostScaled(cs: seq<Course>, sel: seq<int>, cap: real)
    requires PricesWithin(cs, cap)
    ensures BaseSum(cs, sel) <= Scaled(cap, |sel|)
  {
    if sel != [] {
      BaseSumAtMostScaled(cs, sel[..|sel| - 1], cap);
      PriceInWithin(cs, sel[|sel| - 1], cap);
    }
  }

  /** What one id adds lies between 0 and the highest price. */
  lemma PriceInWithin(cs: seq<Course>, id: int, cap: real)
    requires PricesWithin(cs, cap)
    ensures 0.0 <= PriceIn(cs, id) <= cap
  {
    match Find(cs, id)
    case None =>
    case Some(c) =>
      var i :| 0 <= i < |cs| && cs[i] == c;
  }

  /** The discount rate chosen by the number of list entries: 5% for exactly
      two, 10% for exactly three, 15% for more than three, none otherwise. */
  function Discount(n: nat): real {
    if n == 2 then 0.05
    else if n == 3 then 0.10
    else if n > 3 then 0.15
    else 0.0
  }

  /** A base sum with the discount for `n` entries taken off
      (`total - total * discount`). */
  function Discounted(total: real, n: nat): real {
    total - total * Discount(n)
  }

  /** The discounted base sum plus VAT on it. */
  function Charge(total: real, n: nat): real {
    var discounted := Discounted(total, n);
    var vat := discounted * VAT_RATE;
    discounted + vat
  }

  /** The selection's base sum after its discount. */
  function DiscountedTotal(cs: seq<Course>, sel: seq<int>): real {
    Discounted(BaseSum(cs, sel), |sel|)
  }

  /** The figure the screen stores in `totalFees`: the charge on the
      selection's base sum for its number of entries. */
  function Total(cs: seq<Course>, sel: seq<int>): (t: real)
    ensures sel == [] ==> t == 0.0
  {
    Charge(BaseSum(cs, sel), |sel|)
  }

  /** The total in one formula: the base sum times the part left after the
      discount, times 1 plus the VAT rate. */
  lemma TotalClosedForm(cs: seq<Course>, sel: seq<int>)
    ensures DiscountedTotal(cs, sel) == BaseSum(cs, sel) * (1.0 - Discount(|sel|))
    ensures Total(cs, sel) == BaseSum(cs, sel) * (1.0 - Discount(|sel|)) * (1.0 + VAT_RATE)
  {
  }

  /** The ladder as one closed form: no entries, no discount; otherwise 5% for
      every entry after the first, up to the fourth. Never cumulative, never
      above 15%. */
  lemma DiscountClosedForm(n: nat)
    ensures Discount(n) == if n == 0 then 0.0 else 0.05 * ((if n < 4 then n else 4) - 1) as real
    ensures 0.0 <= Discount(n) <= 0.15
  {
  }

  /** More entries never earn a smaller discount. */
  lemma DiscountMonotone(m: nat, n: nat)
    requires m <= n
    ensures Discount(m) <= Discount(n)
  {
  }

  /** With prices that are not negative, the total lies between the base sum
      at the full 15% discount plus VAT and the base sum plus VAT. */
  lemma TotalBounds(cs: seq<Course>, sel: seq<int>)
    requires PricesNonNegative(cs)
    ensures 0.0 <= BaseSum(cs, sel) * 0.85 * 1.15 <= Total(cs, sel) <= BaseSum(cs, sel) * 1.15
  {
    TotalClosedForm(cs, sel);
    ChargeBounds(BaseSum(cs, sel), |sel|);
  }

  /** The arithmetic of the discount and the VAT on a base sum `b` that is
      not negative. */
  lemma ChargeBounds(b: real, n: nat)
    requires 0.0 <= b
    ensures 0.0 <= b * 0.85 * 1.15 <= b * (1.0 - Discount(n)) * (1.0 + VAT_RATE) <= b * 1.15
  {
    var d := Discount(n);
    assert 0.85 <= 1.0 - d <= 1.0;
    assert b * 0.85 <= b * (1.0 - d) <= b;
  }

  /** Reference definition of the base sum from the catalog's side: each
      course's price times how many times its id is selected. */
  function CatalogSum(cs: seq<Course>, m: multiset<int>): real {
    if cs == [] then 0.0
    else cs[0].price * m[cs[0].id] as real + CatalogSum(cs[1..], m)
  }

  /** Selecting one more id adds that id's price to the catalog-side sum. */
  lemma {:induction false} CatalogSumAdd(cs: seq<Course>, m: multiset<int>, x: int)
    requires DistinctIds(cs)
    ensures CatalogSum(cs, m + multiset{x}) == CatalogSum(cs, m) + PriceIn(cs, x)
  {
    if cs != [] {
      var tail := cs[1..];
      assert DistinctIds(tail) by {
        forall i, j | 0 <= i < j < |tail| ensures tail[i].id != tail[j].id {
          assert tail[i] == cs[i + 1] && tail[j] == cs[j + 1];
        }
      }
      CatalogSumAdd(tail, m, x);
      if cs[0].id == x {
        assert forall i :: 0 <= i < |tail| ==> tail[i].id != x by {
          forall i | 0 <= i < |tail| ensures tail[i].id != x {
            assert tail[i] == cs[i + 1];
          }
        }
        assert PriceIn(tail, x) == 0.0;
      } else {
        assert Find(cs, x) == Find(tail, x);
      }
    }
  }

  /** The catalog-side sum of the empty selection is 0. */
  lemma {:induction false} CatalogSumEmpty(cs: seq<Course>)
    ensures CatalogSum(cs, multiset{}) == 0.0
  {
    if cs != [] {
      CatalogSumEmpty(cs[1..]);
    }
  }

  /** For a catalog with unique ids, the base sum equals the catalog-side sum
      over the multiset of selected ids: each price counted once per selection
      of its id, and ids outside the catalog counted not at all. */
  lemma {:induction false} BaseSumByCatalog(cs: seq<Course>, sel: seq<int>)
    requires DistinctIds(cs)
    ensures BaseSum(cs, sel) == CatalogSum(cs, multiset(sel))
  {
    if sel == [] {
      CatalogSumEmpty(cs);
    } else {
      var init := sel[..|sel| - 1];
      var x := sel[|sel| - 1];
      assert sel == init + [x];
      BaseSumByCatalog(cs, init);
      CatalogSumAdd(cs, multiset(init), x);
    }
  }

  /** A selection made only of ids the catalog does not know has base sum 0,
      and so costs nothing, however many entries it has. */
  lemma {:induction false} BaseSumUnknownOnly(cs: seq<Course>, sel: seq<int>)
    requires forall i :: 0 <= i < |sel| ==> Find(cs, sel[i]).None?
    ensures BaseSum(cs, sel) == 0.0
    ensures Total(cs, sel) == 0.0
  {
    if sel != [] {
      var init := sel[..|sel| - 1];
      assert forall i :: 0 <= i < |init| ==> Find(cs, init[i]).None? by {
        forall i | 0 <= i < |init| ensures Find(cs, init[i]).None? {
          assert init[i] == sel[i];
        }
      }
      BaseSumUnknownOnly(cs, init);
    }
  }

  /** Selecting the same ids in another order gives the same total, in any
      catalog: neither the base sum nor the number of entries depends on the
      order. */
  lemma TotalOrderIndependent(cs: seq<Course>, a: seq<int>, b: seq<int>)
    requires multiset(a) == multiset(b)
    ensures BaseSum(cs, a) == BaseSum(cs, b)
    ensures Total(cs, a) == Total(cs, b)
  {
    BaseSumReordered(cs, a, b);
    assert |multiset(a)| == |a| && |multiset(b)| == |b|;
  }

  /** Two selections holding the same ids the same number of times have the
      same base sum. */
  lemma {:induction false} BaseSumReordered(cs: seq<Course>, a: seq<int>, b: seq<int>)
    requires multiset(a) == multiset(b)
    ensures BaseSum(cs, a) == BaseSum(cs, b)
    decreases |a|
  {
    if a == [] {
      assert |multiset(b)| == |b|;
    } else {
      var init := a[..|a| - 1];
      var x := a[|a| - 1];
      assert x in multiset(a);
      assert x in b;
      var j :| 0 <= j < |b| && b[j] == x;
      var rest := b[..j] + b[j + 1..];
      RemoveMatching(a, b, j);
      BaseSumReordered(cs, init, rest);
      BaseSumRemoveAt(cs, b, j);
    }
  }

  /** Taking the last entry off `a` and a matching entry out of `b` keeps
      the two lists' multisets equal. */
  lemma RemoveMatching(a: seq<int>, b: seq<int>, j: nat)
    requires multiset(a) == multiset(b)
    requires a != [] && j < |b| && b[j] == a[|a| - 1]
    ensures multiset(a[..|a| - 1]) == multiset(b[..j] + b[j + 1..])
  {
    var init := a[..|a| - 1];
    var x := a[|a| - 1];
    var rest := b[..j] + b[j + 1..];
    assert a == init + [x];
    assert b == b[..j] + [x] + b[j + 1..];
    assert multiset(a) == multiset(init) + multiset{x};
    assert multiset(b) == multiset(rest) + multiset{x} by {
      assert multiset(b) == multiset(b[..j]) + multiset{x} + multiset(b[j + 1..]);
    }
    forall y ensures multiset(init)[y] == multiset(rest)[y] {
      assert multiset(a)[y] == multiset(b)[y];
    }
  }

  /** Taking entry j out of a selection lowers the base sum by its price. */
  lemma {:induction false} BaseSumRemoveAt(cs: seq<Course>, b: seq<int>, j: nat)
    requires j < |b|
    ensures BaseSum(cs, b) == BaseSum(cs, b[..j] + b[j + 1..]) + PriceIn(cs, b[j])
  {
    var init := b[..|b| - 1];
    var last := b[|b| - 1];
    if j == |b| - 1 {
      assert b[..j] + b[j + 1..] == init;
    } else {
      BaseSumRemoveAt(cs, init, j);
      assert init[j] == b[j];
      assert b[..j] + b[j + 1..] == (init[..j] + init[j + 1..]) + [last];
      BaseSumAppend(cs, init[..j] + init[j + 1..], last);
    }
  }

  /** Appending an id to the selection raises the base sum by its price. */
  lemma BaseSumAppend(cs: seq<Course>, sel: seq<int>, x: int)
    ensures BaseSum(cs, sel + [x]) == BaseSum(cs, sel) + PriceIn(cs, x)
  {
    assert (sel + [x])[..|sel|] == sel;
  }

  /** The sum of all catalog prices. */
  function CatalogPriceTotal(cs: seq<Course>): real {
    if cs == [] then 0.0 else cs[0].price + CatalogPriceTotal(cs[1..])
  }

  /** When no id is selected more than once, the catalog-side sum is at most
      the price of the whole catalog. */
  lemma {:induction false} CatalogSumAtMostOnce(cs: seq<Course>, m: multiset<int>)
    requires PricesNonNegative(cs)
    requires forall x :: m[x] <= 1
    ensures CatalogSum(cs, m) <= CatalogPriceTotal(cs)
  {
    if cs != [] {
      assert 0.0 <= cs[0].price;
      assert PricesNonNegative(cs[1..]) by {
        forall i | 0 <= i < |cs[1..]| ensures 0.0 <= cs[1..][i].price {
          assert cs[1..][i] == cs[i + 1];
        }
      }
      CatalogSumAtMostOnce(cs[1..], m);
    }
  }

  /** For a catalog with unique ids, a duplicate-free selection costs at most
      the whole catalog before discount and VAT. */
  lemma BaseSumDistinctAtMostCatalog(cs: seq<Course>, sel: seq<int>)
    requires DistinctIds(cs) && PricesNonNegative(cs)
    requires NoDups(sel)
    ensures BaseSum(cs, sel) <= CatalogPriceTotal(cs)
  {
    BaseSumByCatalog(cs, sel);
    forall x ensures multiset(sel)[x] <= 1 {
      NoDupsCount(sel, x);
    }
    CatalogSumAtMostOnce(cs, multiset(sel));
  }

  /** A duplicate-free selection from the fixed catalog costs at most
      8064.375, the total for all seven courses. */
  lemma TotalMaxDistinct(sel: seq<int>)
    requires NoDups(sel)
    ensures BaseSum(COURSES, sel) <= 8250.0
    ensures Total(COURSES, sel) <= 8064.375
  {
    CatalogFigures();
    TotalMaxDistinctIn(COURSES, sel);
  }

  /** No selection from the fixed catalog is charged a negative amount. */
  lemma CatalogTotalNonNegative(sel: seq<int>)
    ensures 0.0 <= Total(COURSES, sel)
  {
    CatalogFigures();
    assert PricesNonNegative(COURSES);
    TotalBounds(COURSES, sel);
  }

  /** The fixed catalog's figures: unique ids, prices between 0 and 1500,
      8250 for all seven courses. */
  lemma CatalogFigures()
    ensures DistinctIds(COURSES)
    ensures PricesWithin(COURSES, 1500.0)
    ensures CatalogPriceTotal(COURSES) == 8250.0
  {
    CatalogTable();
    CatalogIdsDistinct();
  }

  /** TotalMaxDistinct for any catalog with the fixed catalog's figures. */
  lemma TotalMaxDistinctIn(cs: seq<Course>, sel: seq<int>)
    requires DistinctIds(cs) && PricesWithin(cs, 1500.0)
    requires CatalogPriceTotal(cs) == 8250.0
    requires NoDups(sel)
    ensures BaseSum(cs, sel) <= 8250.0
    ensures Total(cs, sel) <= 8064.375
  {
    BaseSumDistinctAtMostCatalog(cs, sel);
    BaseSumAtMost(cs, sel, 1500.0);
    TotalClosedForm(cs, sel);
    ChargeAtMost(BaseSum(cs, sel), |sel|);
  }

  /** The arithmetic behind TotalMaxDistinct: below four entries the base sum
      is at most 1500 per entry, and from four on it is at most 8250 with the
      full 15% off. */
  lemma ChargeAtMost(b: real, n: nat)
    requires 0.0 <= b <= 1500.0 * n as real && b <= 8250.0
    ensures b * (1.0 - Discount(n)) * (1.0 + VAT_RATE) <= 8064.375
  {
    if n <= 3 {
      assert b <= 4500.0;
      assert b * (1.0 - Discount(n)) <= b;
    } else {
      assert Discount(n) == 0.15;
    }
  }

  /** The base sum read off the price list alone. */
  function ListedSum(sel: seq<int>): real {
    if sel == [] then 0.0 else ListedSum(sel[..|sel| - 1]) + ListedPrice(sel[|sel| - 1])
  }

  /** In a catalog that charges the listed prices, the base sum is the sum of
      the listed prices of the entries. */
  lemma {:induction false} BaseSumListed(cs: seq<Course>, sel: seq<int>)
    requires ListsPrices(cs)
    ensures BaseSum(cs, sel) == ListedSum(sel)
  {
    if sel != [] {
      BaseSumListed(cs, sel[..|sel| - 1]);
    }
  }

  /** The listed sums of the worked examples below. */
  lemma ListedExampleSums()
    ensures ListedSum([1, 2]) == 3000.0 && ListedSum([2, 1]) == 3000.0
    ensures ListedSum([5, 6, 7]) == 2250.0
    ensures ListedSum([1, 2, 3, 4, 5, 6, 7]) == 8250.0
    ensures ListedSum([1, 99]) == 1500.0
  {
    assert [5, 6, 7][..2] == [5, 6];
    assert [1, 2, 3, 4, 5, 6, 7][..6] == [1, 2, 3, 4, 5, 6];
    assert [1, 2, 3, 4, 5, 6][..5] == [1, 2, 3, 4, 5];
    assert [1, 2, 3, 4, 5][..4] == [1, 2, 3, 4];
    assert [1, 2, 3, 4][..3] == [1, 2, 3];
    assert [1, 2, 3][..2] == [1, 2];
  }

  /** First Aid and Sewing: 3000, less 5% is 2850, plus VAT is 3277.50. */
  lemma ExampleFirstAidAndSewing()
    ensures BaseSum(COURSES, [1, 2]) == 3000.0
    ensures DiscountedTotal(COURSES, [1, 2]) == 2850.0
    ensures Total(COURSES, [1, 2]) == 3277.5
  {
    CatalogListsPrices();
    BaseSumListed(COURSES, [1, 2]);
    ListedExampleSums();
  }

  /** Sewing ticked before First Aid costs the same as First Aid before
      Sewing. */
  lemma ExampleSewingThenFirstAid()
    ensures BaseSum(COURSES, [2, 1]) == 3000.0
    ensures Total(COURSES, [2, 1]) == 3277.5
  {
    CatalogListsPrices();
    BaseSumListed(COURSES, [2, 1]);
    ListedExampleSums();
  }

  /** Child Minding, Cooking and Garden Maintenance: 2250, less 10% is 2025,
      plus VAT is 2328.75. */
  lemma ExampleThreeShortCourses()
    ensures BaseSum(COURSES, [5, 6, 7]) == 2250.0
    ensures DiscountedTotal(COURSES, [5, 6, 7]) == 2025.0
    ensures Total(COURSES, [5, 6, 7]) == 2328.75
  {
    CatalogListsPrices();
    BaseSumListed(COURSES, [5, 6, 7]);
    ListedExampleSums();
  }

  /** All seven courses in catalog order: 8250, less 15% is 7012.5, plus VAT
      is 8064.375. */
  lemma ExampleWholeCatalog()
    ensures BaseSum(COURSES, [1, 2, 3, 4, 5, 6, 7]) == 8250.0
    ensures DiscountedTotal(COURSES, [1, 2, 3, 4, 5, 6, 7]) == 7012.5
    ensures Total(COURSES, [1, 2, 3, 4, 5, 6, 7]) == 8064.375
  {
    CatalogListsPrices();
    BaseSumListed(COURSES, [1, 2, 3, 4, 5, 6, 7]);
    ListedExampleSums();
    assert Discount(7) == 0.15;
  }

  /** An id the catalog does not know adds nothing to the sum but still counts
      as an entry for the discount: First Aid with id 99 earns the 5% of a
      two-entry selection on First Aid alone (1500, 1425, 1638.75). */
  lemma ExampleUnknownId()
    ensures BaseSum(COURSES, [1, 99]) == 1500.0
    ensures DiscountedTotal(COURSES, [1, 99]) == 1425.0
    ensures Total(COURSES, [1, 99]) == 1638.75
  {
    CatalogListsPrices();
    BaseSumListed(COURSES, [1, 99]);
    ListedExampleSums();
  }
}
