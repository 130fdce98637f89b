/** The catalog page: it selects the products of the route's category, narrows
    them by price range, sizes, colours and minimum rating, and sorts what is left
    with the comparator chosen by `sortBy`. `ApplyFilters` is the effect that does
    this step by step; `View` is the same computation as a function, and the lemmas
    below say what the page promises about it. */
module ProductsPage {
  import opened Catalog
  import opened Seqs
  import opened StableSort

  /** The page's filter state. `priceRange` is the pair `[min, max]`. */
  datatype ProductFilters = ProductFilters(
    priceRange: (real, real),
    sizes: seq<string>,
    colors: seq<string>,
    rating: real,
    sortBy: string)

  /** The state the page starts with. */
  const InitialFilters := ProductFilters((0.0, 200.0), [], [], 0.0, "featured")

  /** The route's category is in effect unless it is missing, empty or `all`. */
  predicate NarrowsCategory(category: Option<string>)
  {
    category.Some? && category.value != "" && category.value != "all"
  }

  function InCategory(id: string): Product -> bool
  {
    (p: Product) => CategoryId(p.category) == id
  }

  /** The base list the loading effect stores in `products`. */
  function SelectBase(catalog: seq<Product>, category: Option<string>): (r: seq<Product>)
    ensures !NarrowsCategory(category) ==> r == catalog
    ensures NarrowsCategory(category) ==> forall i :: 0 <= i < |r| ==>
      CategoryId(r[i].category) == category.value && r[i] in catalog
    ensures NarrowsCategory(category) ==> forall i ::
      (0 <= i < |catalog| && CategoryId(catalog[i].category) == category.value) ==> catalog[i] in r
  {
    if NarrowsCategory(category) then Filter(catalog, InCategory(category.value)) else catalog
  }

  /** With a category in effect, the base list is exactly the catalog's products of
      that category, in catalog order and with their multiplicity. */
  lemma SelectBaseInOrder(catalog: seq<Product>, category: Option<string>)
    requires NarrowsCategory(category)
    ensures IsSubsequence(SelectBase(catalog, category), catalog)
    ensures forall p ::
      multiset(SelectBase(catalog, category))[p] ==
      (if CategoryId(p.category) == category.value then multiset(catalog)[p] else 0)
  {
    FilterIsSubsequence(catalog, InCategory(category.value));
    forall p {
      FilterCount(catalog, InCategory(category.value), p);
    }
  }

  /** The four filter stages, each as the predicate its `filter` call keeps. */
  function PriceOk(f: ProductFilters): Product -> bool
  {
    (p: Product) => f.priceRange.0 <= p.price && p.price <= f.priceRange.1
  }

  function SizesOk(f: ProductFilters): Product -> bool
  {
    (p: Product) => SharesAny(p.sizes, f.sizes)
  }

  function ColorsOk(f: ProductFilters): Product -> bool
  {
    (p: Product) => SharesAny(p.colors, f.colors)
  }

  function RatingOk(f: ProductFilters): Product -> bool
  {
    (p: Product) => p.rating >= f.rating
  }

  /** What the whole pipeline keeps: each stage either is switched off (an empty
      list, a rating of 0) or accepts the product. */
  predicate Keep(f: ProductFilters, p: Product)
  {
    && f.priceRange.0 <= p.price <= f.priceRange.1
    && (|f.sizes| == 0 || SharesAny(p.sizes, f.sizes))
    && (|f.colors| == 0 || SharesAny(p.colors, f.colors))
    && (f.rating <= 0.0 || p.rating >= f.rating)
  }

  function Kept(f: ProductFilters): Product -> bool
  {
    (p: Product) => Keep(f, p)
  }

  /** The stages as the effect runs them, skipping the switched-off ones. */
  function Narrow(products: seq<Product>, f: ProductFilters): seq<Product>
  {
    var byPrice := Filter(products, PriceOk(f));
    var bySize := if |f.sizes| > 0 then Filter(byPrice, SizesOk(f)) else byPrice;
    var byColor := if |f.colors| > 0 then Filter(bySize, ColorsOk(f)) else bySize;
    if f.rating > 0.0 then Filter(byColor, RatingOk(f)) else byColor
  }

  /** The stage predicates with their switch folded in. */
  function SizeStage(f: ProductFilters): Product -> bool
  {
    (p: Product) => |f.sizes| == 0 || SharesAny(p.sizes, f.sizes)
  }

  function ColorStage(f: ProductFilters): Product -> bool
  {
    (p: Product) => |f.colors| == 0 || SharesAny(p.colors, f.colors)
  }

  function RatingStage(f: ProductFilters): Product -> bool
  {
    (p: Product) => f.rating <= 0.0 || p.rating >= f.rating
  }

  /** Skipping a switched-off stage is the same as running its folded predicate. */
  lemma NarrowByStages(products: seq<Product>, f: ProductFilters)
    ensures Narrow(products, f)
         == Filter(Filter(Filter(Filter(products, PriceOk(f)), SizeStage(f)), ColorStage(f)), RatingStage(f))
  {
    var s1 := Filter(products, PriceOk(f));
    SwitchedStage(s1, |f.sizes| > 0, SizesOk(f), SizeStage(f));
    var s2 := Filter(s1, SizeStage(f));
    SwitchedStage(s2, |f.colors| > 0, ColorsOk(f), ColorStage(f));
    var s3 := Filter(s2, ColorStage(f));
    SwitchedStage(s3, f.rating > 0.0, RatingOk(f), RatingStage(f));
  }

  /** Partial conjunctions of the stage predicates. */
  function PriceAndSize(f: ProductFilters): Product -> bool
  {
    (p: Product) => f.priceRange.0 <= p.price <= f.priceRange.1 && (|f.sizes| == 0 || SharesAny(p.sizes, f.sizes))
  }

  function RatingAndColor(f: ProductFilters): Product -> bool
  {
    (p: Product) => (f.rating <= 0.0 || p.rating >= f.rating) && (|f.colors| == 0 || SharesAny(p.colors, f.colors))
  }

  function AllButPrice(f: ProductFilters): Product -> bool
  {
    (p: Product) => (f.rating <= 0.0 || p.rating >= f.rating) && (|f.colors| == 0 || SharesAny(p.colors, f.colors))
      && (|f.sizes| == 0 || SharesAny(p.sizes, f.sizes))
  }

  function AllButRating(f: ProductFilters): Product -> bool
  {
    (p: Product) => f.priceRange.0 <= p.price <= f.priceRange.1 && (|f.sizes| == 0 || SharesAny(p.sizes, f.sizes))
      && (|f.colors| == 0 || SharesAny(p.colors, f.colors))
  }

  /** The staged pipeline keeps exactly the products that satisfy every stage, in
      catalog order: one filter by the conjunction. */
  lemma NarrowIsOneFilter(products: seq<Product>, f: ProductFilters)
    ensures Narrow(products, f) == Filter(products, Kept(f))
  {
    NarrowByStages(products, f);
    var s2 := Filter(Filter(products, PriceOk(f)), SizeStage(f));
    assert s2 == Filter(products, PriceAndSize(f)) by {
      FilterThen(products, PriceOk(f), SizeStage(f), PriceAndSize(f));
    }
    assert Filter(s2, ColorStage(f)) == Filter(products, AllButRating(f)) by {
      FilterThen(products, PriceAndSize(f), ColorStage(f), AllButRating(f));
    }
    assert Filter(Filter(s2, ColorStage(f)), RatingStage(f)) == Filter(products, Kept(f)) by {
      FilterThen(products, AllButRating(f), RatingStage(f), Kept(f));
    }
  }

  /** Running the stages in the opposite order keeps the same products. */
  lemma StageOrderIrrelevant(products: seq<Product>, f: ProductFilters)
    ensures Filter(Filter(Filter(Filter(products, RatingStage(f)), ColorStage(f)), SizeStage(f)), PriceOk(f))
         == Narrow(products, f)
  {
    NarrowIsOneFilter(products, f);
    var s2 := Filter(Filter(products, RatingStage(f)), ColorStage(f));
    assert s2 == Filter(products, RatingAndColor(f)) by {
      FilterThen(products, RatingStage(f), ColorStage(f), RatingAndColor(f));
    }
    assert Filter(s2, SizeStage(f)) == Filter(products, AllButPrice(f)) by {
      FilterThen(products, RatingAndColor(f), SizeStage(f), AllButPrice(f));
    }
    assert Filter(Filter(s2, SizeStage(f)), PriceOk(f)) == Filter(products, Kept(f)) by {
      FilterThen(products, AllButPrice(f), PriceOk(f), Kept(f));
    }
  }

  /** The comparator the `switch` on `sortBy` picks; any other value is `featured`. */
  function SortKey(sortBy: string): Product -> real
  {
    if sortBy == "price-low" then PriceAscending
    else if sortBy == "price-high" then PriceDescending
    else if sortBy == "rating" then RatingDescending
    else if sortBy == "newest" then NewestFirst
    else FeaturedFirst
  }

  /** The list the page shows for `products` under filter state `f`. */
  function View(products: seq<Product>, f: ProductFilters): seq<Product>
  {
    Sort(Narrow(products, f), SortKey(f.sortBy))
  }

  /** The filter stages of the effect (Products.tsx lines 39-63): copies `products`
      (`[...products]`) and lets each active stage replace the copy by the fresh
      array `filter` returns. */
  method NarrowCopy(products: array<Product>, filters: ProductFilters) returns (filtered: array<Product>)
    ensures fresh(filtered)
    ensures filtered[..] == Narrow(products[..], filters)
  {
    ghost var base := products[..];
    filtered := ToArray(products[..]);
    filtered := ToArray(Filter(filtered[..], PriceOk(filters)));
    ghost var byPrice := Filter(base, PriceOk(filters));
    if |filters.sizes| > 0 {
      filtered := ToArray(Filter(filtered[..], SizesOk(filters)));
    }
    ghost var bySize := if |filters.sizes| > 0 then Filter(byPrice, SizesOk(filters)) else byPrice;
    assert filtered[..] == bySize;
    if |filters.colors| > 0 {
      filtered := ToArray(Filter(filtered[..], ColorsOk(filters)));
    }
    ghost var byColor := if |filters.colors| > 0 then Filter(bySize, ColorsOk(filters)) else bySize;
    assert filtered[..] == byColor;
    if filters.rating > 0.0 {
      filtered := ToArray(Filter(filtered[..], RatingOk(filters)));
    }
  }

  /** The filter/sort effect: narrows a copy of `products`, then sorts that fresh
      array in place. Only the copy is sorted, so `products` keeps its order;
      sorting `products` itself would need it in a `modifies` clause, and there is
      none. */
  method ApplyFilters(products: array<Product>, filters: ProductFilters) returns (result: array<Product>)
    ensures fresh(result)
    ensures result[..] == View(products[..], filters)
    ensures unchanged(products)
  {
    result := NarrowCopy(products, filters);
    SortInPlace(result, SortKey(filters.sortBy));
  }

  /** Every product shown passes every active filter (the price range is inclusive
      at both ends), every product of `products` that passes them is shown, and
      the list shown is a rearrangement of the filtered list. */
  lemma ViewContents(products: seq<Product>, f: ProductFilters)
    ensures multiset(View(products, f)) == multiset(Filter(products, Kept(f)))
    ensures forall i :: 0 <= i < |View(products, f)| ==>
      var p := View(products, f)[i];
      && p in products
      && f.priceRange.0 <= p.price <= f.priceRange.1
      && (|f.sizes| > 0 ==> SharesAny(p.sizes, f.sizes))
      && (|f.colors| > 0 ==> SharesAny(p.colors, f.colors))
      && (f.rating > 0.0 ==> p.rating >= f.rating)
    ensures forall i :: 0 <= i < |products| && Keep(f, products[i]) ==> products[i] in View(products, f)
  {
    assert multiset(View(products, f)) == multiset(Filter(products, Kept(f))) by {
      NarrowIsOneFilter(products, f);
      SortPermutes(Filter(products, Kept(f)), SortKey(f.sortBy));
    }
    ViewMembership(products, f);
    var v := View(products, f);
    forall i | 0 <= i < |v|
      ensures v[i] in products && Keep(f, v[i])
    {
      assert v[i] in v;
    }
  }

  /** A product is shown exactly when it is in `products` and passes every active filter. */
  lemma ViewMembership(products: seq<Product>, f: ProductFilters)
    ensures forall p :: p in View(products, f) <==> p in products && Keep(f, p)
  {
    NarrowIsOneFilter(products, f);
    SortMembership(Filter(products, Kept(f)), SortKey(f.sortBy));
    FilterMembership(products, Kept(f));
  }

  /** The four named orders. */
  lemma ViewOrder(products: seq<Product>, f: ProductFilters)
    ensures var v := View(products, f);
      && (f.sortBy == "price-low" ==> forall i, j :: 0 <= i < j < |v| ==> v[i].price <= v[j].price)
      && (f.sortBy == "price-high" ==> forall i, j :: 0 <= i < j < |v| ==> v[i].price >= v[j].price)
      && (f.sortBy == "rating" ==> forall i, j :: 0 <= i < j < |v| ==> v[i].rating >= v[j].rating)
      && (f.sortBy == "newest" ==> forall i, j :: 0 <= i < j < |v| ==> v[i].createdAt >= v[j].createdAt)
  {
    var key := SortKey(f.sortBy);
    SortSorted(Narrow(products, f), key);
    var v := View(products, f);
    assert forall i, j :: 0 <= i < j < |v| ==> key(v[i]) <= key(v[j]);
  }

  /** Products the comparator ranks equal keep the order they had before sorting. */
  lemma ViewStable(products: seq<Product>, f: ProductFilters, k: real)
    ensures Filter(View(products, f), HasKey(SortKey(f.sortBy), k))
         == Filter(Narrow(products, f), HasKey(SortKey(f.sortBy), k))
  {
    SortStable(Narrow(products, f), SortKey(f.sortBy), k);
  }

  /** `sortBy` values the `switch` does not name. */
  predicate SortsFeaturedFirst(sortBy: string)
  {
    sortBy != "price-low" && sortBy != "price-high" && sortBy != "rating" && sortBy != "newest"
  }

  /** For `featured` and every unrecognised `sortBy`: all featured products come
      first, then the others, each group in its filtered order. */
  lemma ViewFeaturedFirst(products: seq<Product>, f: ProductFilters)
    requires SortsFeaturedFirst(f.sortBy)
    ensures View(products, f)
         == Filter(Narrow(products, f), IsFeatured) + Filter(Narrow(products, f), NotFeatured)
  {
    SortTwoTiers(Narrow(products, f), FeaturedFirst, IsFeatured, NotFeatured, -1.0, 0.0);
  }

  /** In the initial state only the price range is in effect: a product passes
      exactly when its price is between 0 and 200, and the sort is featured-first. */
  lemma InitialFiltersKeep(p: Product)
    ensures Keep(InitialFilters, p) <==> 0.0 <= p.price <= 200.0
    ensures SortsFeaturedFirst(InitialFilters.sortBy)
  {
  }

  /** Which list `toggleArrayFilter` edits. */
  datatype ArrayFilter = SizesFilter | ColorsFilter

  /** `toggleArrayFilter`: removes every copy of a value already selected, or
      appends an unselected one, in the named list only. */
  function ToggleArrayFilter(f: ProductFilters, key: ArrayFilter, value: string): (r: ProductFilters)
    ensures r.priceRange == f.priceRange && r.rating == f.rating && r.sortBy == f.sortBy
    ensures key == SizesFilter ==> r.colors == f.colors && (value in r.sizes <==> value !in f.sizes)
    ensures key == ColorsFilter ==> r.sizes == f.sizes && (value in r.colors <==> value !in f.colors)
    ensures key == SizesFilter ==> forall v :: v != value ==> (v in r.sizes <==> v in f.sizes)
    ensures key == ColorsFilter ==> forall v :: v != value ==> (v in r.colors <==> v in f.colors)
  {
    match key
    case SizesFilter => f.(sizes := Toggle(f.sizes, value))
    case ColorsFilter => f.(colors := Toggle(f.colors, value))
  }

  /** Toggling the same value twice gives every value its old membership back. */
  lemma ToggleArrayFilterTwice(f: ProductFilters, key: ArrayFilter, value: string)
    ensures var r := ToggleArrayFilter(ToggleArrayFilter(f, key, value), key, value);
      && r.priceRange == f.priceRange && r.rating == f.rating && r.sortBy == f.sortBy
      && (forall v :: v in r.sizes <==> v in f.sizes)
      && (forall v :: v in r.colors <==> v in f.colors)
  {
    ToggleTwice(f.sizes, value);
    ToggleTwice(f.colors, value);
  }

  /** `clearFilters` puts back the state the page started with. */
  function ClearFilters(): (r: ProductFilters)
    ensures r == InitialFilters
  {
    ProductFilters((0.0, 200.0), [], [], 0.0, "featured")
  }

  /** After `clearFilters` the page shows the products priced 0 to 200, featured first. */
  lemma ClearedView(products: seq<Product>)
    ensures View(products, ClearFilters())
         == Filter(Filter(products, PriceOk(InitialFilters)), IsFeatured)
          + Filter(Filter(products, PriceOk(InitialFilters)), NotFeatured)
  {
    ViewFeaturedFirst(products, ClearFilters());
  }
}
