/**
 * The product list page's filters: a price band, a set of selected
 * categories and a sale flag, applied one after another to the products
 * the page fetched, plus the operations the filter panel offers and the
 * de-duplicated list of category ids it shows.
 */
module ProductFilters {
  import opened Wrappers
  import opened Seqs
  import opened Schema

  /** The filters in force. */
  datatype FilterState = FilterState(minPrice: int, maxPrice: int, categoryIds: seq<int>, sale: bool)

  /** The price slider's position, which becomes the price band only when committed. */
  datatype PriceRange = PriceRange(low: int, high: int)

  /** The page's filter state together with the slider. */
  datatype FilterPanel = FilterPanel(filters: FilterState, priceRange: PriceRange)

  const DefaultMinPrice: int := 0
  const DefaultMaxPrice: int := 2000

  /** The panel a page opens with; the sale flag comes from `?sale=true`. */
  function InitialPanel(isSalePage: bool): (p: FilterPanel)
    ensures p.filters.categoryIds == [] && p.filters.sale == isSalePage
    ensures p.filters.minPrice == p.priceRange.low == DefaultMinPrice
    ensures p.filters.maxPrice == p.priceRange.high == DefaultMaxPrice
  {
    FilterPanel(FilterState(DefaultMinPrice, DefaultMaxPrice, [], isSalePage),
                PriceRange(DefaultMinPrice, DefaultMaxPrice))
  }

  /**
   * Whether a product survives all three filters. `routed` says the page
   * shows one category from its route, in which case the category
   * selection is ignored; so is an empty selection.
   */
  predicate Admits(f: FilterState, routed: bool, p: Product) {
    && InPriceBand(f, p)
    && (!routed && |f.categoryIds| > 0 ==> InSelectedCategory(f, p))
    && (f.sale ==> OnSale(p))
  }

  predicate InPriceBand(f: FilterState, p: Product) {
    f.minPrice <= p.price <= f.maxPrice
  }

  predicate InSelectedCategory(f: FilterState, p: Product) {
    p.categoryId in f.categoryIds
  }

  predicate OnSale(p: Product) {
    p.compareAtPrice.Some?
  }

  /**
   * The list the page shows after the products or the filters change.
   * While the products have not arrived the shown list stays as it was;
   * otherwise it is the products the filters admit, in their order.
   */
  function ApplyFilters(products: Option<seq<Product>>, f: FilterState, routed: bool, shown: seq<Product>)
    : (r: seq<Product>)
    ensures products.None? ==> r == shown
    ensures products.Some? ==> IsSubseq(r, products.value)
    ensures products.Some? ==> forall p :: p in r ==> p in products.value && Admits(f, routed, p)
    ensures products.Some? ==> forall p :: p in products.value && Admits(f, routed, p) ==> p in r
    ensures products.Some? ==> r == Filter(products.value, p => Admits(f, routed, p))
  {
    match products
    case None => shown
    case Some(all) =>
      var byPrice := Filter(all, p => InPriceBand(f, p));
      var byCategory :=
        if !routed && |f.categoryIds| > 0 then Filter(byPrice, p => InSelectedCategory(f, p)) else byPrice;
      var bySale := if f.sale then Filter(byCategory, OnSale) else byCategory;
      var priceAndCategory := p => InPriceBand(f, p) && (!routed && |f.categoryIds| > 0 ==> InSelectedCategory(f, p));
      var admitted := p => Admits(f, routed, p);
      assert byCategory == Filter(all, priceAndCategory) by {
        if !routed && |f.categoryIds| > 0 {
          FilterFilter(all, p => InPriceBand(f, p), p => InSelectedCategory(f, p), priceAndCategory);
        } else {
          FilterSame(all, p => InPriceBand(f, p), priceAndCategory);
        }
      }
      assert bySale == Filter(all, admitted) by {
        if f.sale {
          FilterFilter(all, priceAndCategory, OnSale, admitted);
        } else {
          FilterSame(all, priceAndCategory, admitted);
        }
      }
      bySale
  }

  /** Adds the category to the selection, or removes every occurrence of it. */
  function ToggleCategory(f: FilterState, c: int): (g: FilterState)
    ensures g == f.(categoryIds := g.categoryIds)
    ensures c in g.categoryIds <==> c !in f.categoryIds
    ensures forall d :: d != c ==> (d in g.categoryIds <==> d in f.categoryIds)
    ensures c !in f.categoryIds ==> g.categoryIds == f.categoryIds + [c]
    ensures IsSubseq(g.categoryIds, f.categoryIds) || g.categoryIds == f.categoryIds + [c]
    ensures NoDups(f.categoryIds) ==> NoDups(g.categoryIds)
  {
    var ids :=
      if c in f.categoryIds then Filter(f.categoryIds, (id: int) => id != c)
      else f.categoryIds + [c];
    assert NoDups(f.categoryIds) ==> NoDups(ids) by {
      if NoDups(f.categoryIds) && c in f.categoryIds {
        FilterNoDups(f.categoryIds, (id: int) => id != c);
      }
    }
    f.(categoryIds := ids)
  }

  /**
   * Toggling a category twice restores whether each id is selected; when
   * the category was not selected it restores the selection exactly.
   */
  lemma {:induction false} ToggleCategoryTwice(f: FilterState, c: int)
    ensures var g := ToggleCategory(ToggleCategory(f, c), c);
            forall d :: d in g.categoryIds <==> d in f.categoryIds
    ensures c !in f.categoryIds ==> ToggleCategory(ToggleCategory(f, c), c) == f
  {
    if c !in f.categoryIds {
      var keep := (id: int) => id != c;
      FilterAppend(f.categoryIds, [c], keep);
      FilterKeepsAll(f.categoryIds, keep);
      assert Filter([c], keep) == [];
    }
  }

  /** Flips the sale flag and nothing else. */
  function ToggleSale(f: FilterState): (g: FilterState)
    ensures g.sale != f.sale
    ensures g.(sale := f.sale) == f
  {
    f.(sale := !f.sale)
  }

  /** Turning the sale flag on never shows more products; off never fewer. */
  lemma SaleOnlyNarrows(f: FilterState, routed: bool, p: Product)
    requires !f.sale
    ensures Admits(ToggleSale(f), routed, p) ==> Admits(f, routed, p)
    ensures Admits(ToggleSale(f), routed, p) <==> Admits(f, routed, p) && p.compareAtPrice.Some?
  {
  }

  /** Resets the filters and the slider, whatever they were. */
  function ClearFilters(): (p: FilterPanel)
    ensures p.filters == FilterState(DefaultMinPrice, DefaultMaxPrice, [], false)
    ensures p.priceRange == PriceRange(DefaultMinPrice, DefaultMaxPrice)
  {
    FilterPanel(FilterState(DefaultMinPrice, DefaultMaxPrice, [], false), PriceRange(DefaultMinPrice, DefaultMaxPrice))
  }

  /** With cleared filters the page shows exactly the products priced 0 to 2000. */
  lemma ClearedShowsPriceBand(products: seq<Product>, routed: bool, shown: seq<Product>, p: Product)
    ensures var r := ApplyFilters(Some(products), ClearFilters().filters, routed, shown);
            p in r <==> p in products && 0 <= p.price <= 2000
  {
  }

  /** Moving the slider changes only the slider, not the filters. */
  function ChangePriceRange(panel: FilterPanel, low: int, high: int): (q: FilterPanel)
    ensures q.filters == panel.filters
    ensures q.priceRange == PriceRange(low, high)
  {
    panel.(priceRange := PriceRange(low, high))
  }

  /** Releasing the slider makes its position the price band. */
  function CommitPriceRange(panel: FilterPanel): (q: FilterPanel)
    ensures q.priceRange == panel.priceRange
    ensures q.filters.minPrice == panel.priceRange.low && q.filters.maxPrice == panel.priceRange.high
    ensures q.filters.categoryIds == panel.filters.categoryIds && q.filters.sale == panel.filters.sale
  {
    panel.(filters := panel.filters.(minPrice := panel.priceRange.low, maxPrice := panel.priceRange.high))
  }

  /** After moving and releasing the slider the shown products are those priced between its ends. */
  lemma CommittedBandFilters(panel: FilterPanel, low: int, high: int, products: seq<Product>,
                             routed: bool, shown: seq<Product>, p: Product)
    ensures var f := CommitPriceRange(ChangePriceRange(panel, low, high)).filters;
            p in ApplyFilters(Some(products), f, routed, shown) ==> low <= p.price <= high
  {
  }

  /**
   * `Array.from(new Set(ids))`: the set takes the ids one after another
   * and adds each it does not hold yet, so it lists each id once.
   */
  function DistinctIds(ids: seq<int>): (r: seq<int>)
    ensures NoDups(r)
    ensures IsSubseq(r, ids)
    ensures forall x :: x in r ==> x in ids
    ensures forall x :: x in ids ==> x in r
    ensures ids != [] ==> r != [] && r[0] == ids[0]
    decreases |ids|
  {
    if ids == [] then []
    else
      var before := ids[..|ids| - 1];
      var last := ids[|ids| - 1];
      var seen := DistinctIds(before);
      assert ids == before + [last];
      SubseqSnoc(seen, before, last);
      if last in before then seen else seen + [last]
  }

  /**
   * `r` lists ids in the order of their first occurrence in `ids`: the
   * first occurrence of an earlier one precedes every occurrence of a
   * later one.
   */
  predicate FirstOccurrenceOrder(r: seq<int>, ids: seq<int>) {
    forall i, j :: 0 <= i < j < |r| ==>
      exists a :: 0 <= a < |ids| && ids[a] == r[i] && r[j] !in ids[..a]
  }

  /** The distinct ids come in the order of their first occurrence. */
  lemma {:induction false} DistinctIdsFirstOccurrence(ids: seq<int>)
    ensures FirstOccurrenceOrder(DistinctIds(ids), ids)
    decreases |ids|
  {
    if ids != [] {
      var before := ids[..|ids| - 1];
      var last := ids[|ids| - 1];
      var seen := DistinctIds(before);
      var r := DistinctIds(ids);
      DistinctIdsFirstOccurrence(before);
      assert ids == before + [last];
      assert r == if last in before then seen else seen + [last];
      forall i, j | 0 <= i < j < |r|
        ensures exists a :: 0 <= a < |ids| && ids[a] == r[i] && r[j] !in ids[..a]
      {
        assert r[i] == seen[i];
        if j < |seen| {
          assert r[j] == seen[j];
          var a :| 0 <= a < |before| && before[a] == seen[i] && seen[j] !in before[..a];
          assert ids[..a] == before[..a];
          assert ids[a] == r[i] && r[j] !in ids[..a];
        } else {
          assert seen[i] in before;
          var a :| 0 <= a < |before| && before[a] == seen[i];
          assert ids[..a] == before[..a];
          assert last !in before[..a];
          assert ids[a] == r[i] && r[j] !in ids[..a];
        }
      }
    }
  }

  /** The category ids the filter panel offers: those of the fetched products, once each. */
  function CategoryIds(products: Option<seq<Product>>): (r: seq<int>)
    ensures NoDups(r)
    ensures products.None? ==> r == []
    ensures forall id :: id in r <==> products.Some? && exists p :: p in products.value && p.categoryId == id
  {
    match products
    case None => []
    case Some(ps) =>
      var ids := seq(|ps|, i requires 0 <= i < |ps| => ps[i].categoryId);
      var r := DistinctIds(ids);
      assert forall id :: id in r ==> exists p :: p in ps && p.categoryId == id by {
        forall id | id in r
          ensures exists p :: p in ps && p.categoryId == id
        {
          var i :| 0 <= i < |ids| && ids[i] == id;
          assert ps[i] in ps;
        }
      }
      assert forall p :: p in ps ==> p.categoryId in r by {
        forall p | p in ps
          ensures p.categoryId in r
        {
          var i :| 0 <= i < |ps| && ps[i] == p;
          assert ids[i] == p.categoryId;
        }
      }
      r
  }
}
