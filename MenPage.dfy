/** The men's page: a text search over name and description, a sub-category
    (tops, bottoms, outerwear, accessories) guessed from keywords in the product
    name, a size filter, and a sort with no `newest` option. `ApplyFilters` is the
    effect that does this step by step; `View` is the same computation as a
    function, and the lemmas below say what the page promises about it. */
module MenPage {
  import opened Catalog
  import opened Seqs
  import opened StableSort

  /** The page's filter state. */
  datatype MenFilters = MenFilters(search: string, category: string, sizes: seq<string>, sortBy: string)

  /** The state the page starts with. */
  const InitialFilters := MenFilters("", "all", [], "featured")

  /** The case-insensitive search: the lower-cased query occurs in the lower-cased
      name or the lower-cased description. */
  predicate MatchesSearch(search: string, p: Product)
  {
    Contains(Lower(p.name), Lower(search)) || Contains(Lower(p.description), Lower(search))
  }

  /** The sub-category guessed from keywords in the lower-cased product name;
      every other category id accepts every name. */
  predicate InSubCategory(category: string, name: string)
  {
    var n := Lower(name);
    if category == "tops" then Contains(n, "shirt") || Contains(n, "sweater") || Contains(n, "t-shirt")
    else if category == "bottoms" then Contains(n, "chinos") || Contains(n, "joggers") || Contains(n, "pants")
    else if category == "outerwear" then Contains(n, "jacket") || Contains(n, "parka") || Contains(n, "coat")
    else if category == "accessories" then Contains(n, "shoes") || Contains(n, "belt") || Contains(n, "watch")
    else true
  }

  /** The category ids with a keyword list. */
  predicate IsKnownSubCategory(category: string)
  {
    category == "tops" || category == "bottoms" || category == "outerwear" || category == "accessories"
  }

  /** The three filter stages, each as the predicate its `filter` call keeps. */
  function SearchOk(f: MenFilters): Product -> bool
  {
    (p: Product) => MatchesSearch(f.search, p)
  }

  function CategoryOk(f: MenFilters): Product -> bool
  {
    (p: Product) => InSubCategory(f.category, p.name)
  }

  function SizesOk(f: MenFilters): Product -> bool
  {
    (p: Product) => SharesAny(p.sizes, f.sizes)
  }

  /** What the whole pipeline keeps: each stage either is switched off (an empty
      search, category `all`, no sizes) or accepts the product. */
  predicate Keep(f: MenFilters, p: Product)
  {
    && (f.search == "" || MatchesSearch(f.search, p))
    && (f.category == "all" || InSubCategory(f.category, p.name))
    && (|f.sizes| == 0 || SharesAny(p.sizes, f.sizes))
  }

  function Kept(f: MenFilters): Product -> bool
  {
    (p: Product) => Keep(f, p)
  }

  /** The stages as the effect runs them, skipping the switched-off ones. */
  function Narrow(products: seq<Product>, f: MenFilters): seq<Product>
  {
    var bySearch := if f.search != "" then Filter(products, SearchOk(f)) else products;
    var byCategory := if f.category != "all" then Filter(bySearch, CategoryOk(f)) else bySearch;
    if |f.sizes| > 0 then Filter(byCategory, SizesOk(f)) else byCategory
  }

  /** The stage predicates with their switch folded in. */
  function SearchStage(f: MenFilters): Product -> bool
  {
    (p: Product) => f.search == "" || MatchesSearch(f.search, p)
  }

  function CategoryStage(f: MenFilters): Product -> bool
  {
    (p: Product) => f.category == "all" || InSubCategory(f.category, p.name)
  }

  function SizeStage(f: MenFilters): Product -> bool
  {
    (p: Product) => |f.sizes| == 0 || SharesAny(p.sizes, f.sizes)
  }

  function SearchAndCategory(f: MenFilters): Product -> bool
  {
    (p: Product) => (f.search == "" || MatchesSearch(f.search, p))
      && (f.category == "all" || InSubCategory(f.category, p.name))
  }

  /** The staged pipeline keeps exactly the products that satisfy every stage, in
      catalog order: one filter by the conjunction. */
  lemma NarrowIsOneFilter(products: seq<Product>, f: MenFilters)
    ensures Narrow(products, f) == Filter(products, Kept(f))
  {
    var bySearch := if f.search != "" then Filter(products, SearchOk(f)) else products;
    SwitchedStage(products, f.search != "", SearchOk(f), SearchStage(f));
    var byCategory := if f.category != "all" then Filter(bySearch, CategoryOk(f)) else bySearch;
    SwitchedStage(bySearch, f.category != "all", CategoryOk(f), CategoryStage(f));
    SwitchedStage(byCategory, |f.sizes| > 0, SizesOk(f), SizeStage(f));
    assert byCategory == Filter(products, SearchAndCategory(f)) by {
      FilterThen(products, SearchStage(f), CategoryStage(f), SearchAndCategory(f));
    }
    FilterThen(products, SearchAndCategory(f), SizeStage(f), Kept(f));
  }

  /** An empty search would keep every product anyway, since every string contains
      the empty query: the `if (filters.search)` guard changes nothing. */
  lemma EmptySearchKeepsAll(products: seq<Product>, f: MenFilters)
    requires f.search == ""
    ensures Filter(products, SearchOk(f)) == products
  {
    forall i | 0 <= i < |products|
      ensures SearchOk(f)(products[i])
    {
      ContainsEmpty(Lower(products[i].name));
    }
    FilterKeepsAll(products, SearchOk(f));
  }

  /** In the initial state every stage is switched off: every product passes. */
  lemma InitialFiltersKeepAll(p: Product)
    ensures Keep(InitialFilters, p)
    ensures SortsFeaturedFirst(InitialFilters.sortBy)
  {
  }

  /** The `t-shirt` keyword adds nothing: `tops` is "contains shirt or sweater". */
  lemma TopsKeywordsRedundant(name: string)
    ensures InSubCategory("tops", name) == (Contains(Lower(name), "shirt") || Contains(Lower(name), "sweater"))
  {
    if Contains(Lower(name), "t-shirt") {
      TShirtContainsShirt(Lower(name));
    }
  }

  /** The sub-category looks at the name only: two products with the same name are
      classified alike, whatever their descriptions. */
  lemma CategoryIgnoresDescription(f: MenFilters, p: Product, q: Product)
    requires p.name == q.name
    ensures CategoryStage(f)(p) == CategoryStage(f)(q)
  {
  }

  /** A category id without a keyword list narrows nothing, exactly like `all`. */
  lemma UnknownCategoryIsAll(products: seq<Product>, f: MenFilters)
    requires !IsKnownSubCategory(f.category)
    ensures Narrow(products, f) == Narrow(products, f.(category := "all"))
  {
    var bySearch := if f.search != "" then Filter(products, SearchOk(f)) else products;
    if f.category != "all" {
      FilterKeepsAll(bySearch, CategoryOk(f));
    }
  }

  /** The comparator the `switch` on `sortBy` picks; every other value, `newest`
      included, is `featured`. */
  function SortKey(sortBy: string): Product -> real
  {
    if sortBy == "price-low" then PriceAscending
    else if sortBy == "price-high" then PriceDescending
    else if sortBy == "rating" then RatingDescending
    else FeaturedFirst
  }

  /** The list the page shows for `products` under filter state `f`. */
  function View(products: seq<Product>, f: MenFilters): seq<Product>
  {
    Sort(Narrow(products, f), SortKey(f.sortBy))
  }

  /** The filter stages of the effect (MenPage.tsx lines 172-214): copies `products`
      (`[...products]`) and lets each active stage replace the copy by the fresh
      array `filter` returns. With no stage active the copy itself is returned. */
  method NarrowCopy(products: array<Product>, filters: MenFilters) returns (filtered: array<Product>)
    ensures fresh(filtered)
    ensures filtered[..] == Narrow(products[..], filters)
  {
    ghost var base := products[..];
    filtered := ToArray(products[..]);
    if filters.search != "" {
      filtered := ToArray(Filter(filtered[..], SearchOk(filters)));
    }
    ghost var bySearch := if filters.search != "" then Filter(base, SearchOk(filters)) else base;
    assert filtered[..] == bySearch;
    if filters.category != "all" {
      filtered := ToArray(Filter(filtered[..], CategoryOk(filters)));
    }
    ghost var byCategory := if filters.category != "all" then Filter(bySearch, CategoryOk(filters)) else bySearch;
    assert filtered[..] == byCategory;
    if |filters.sizes| > 0 {
      filtered := ToArray(Filter(filtered[..], SizesOk(filters)));
    }
  }

  /** The filter/sort effect: narrows a copy of `products`, then sorts that fresh
      array in place. Only the copy is sorted, so `products` keeps its order;
      sorting `products` itself would need it in a `modifies` clause, and there is
      none. */
  method ApplyFilters(products: array<Product>, filters: MenFilters) returns (result: array<Product>)
    ensures fresh(result)
    ensures result[..] == View(products[..], filters)
    ensures unchanged(products)
  {
    result := NarrowCopy(products, filters);
    SortInPlace(result, SortKey(filters.sortBy));
  }

  /** A product of `products` is shown if and only if it passes every active
      filter; the list shown is a rearrangement of the filtered list. */
  lemma ViewContents(products: seq<Product>, f: MenFilters)
    ensures multiset(View(products, f)) == multiset(Filter(products, Kept(f)))
    ensures forall p :: p in View(products, f) <==> p in products && Keep(f, p)
  {
    NarrowIsOneFilter(products, f);
    var kept := Filter(products, Kept(f));
    SortPermutes(kept, SortKey(f.sortBy));
    var v := View(products, f);
    forall p
      ensures p in v <==> p in products && Keep(f, p)
    {
      calc {
        p in v;
        p in multiset(v);
        p in multiset(kept);
        p in kept;
      }
      if p in products && Keep(f, p) {
        var i :| 0 <= i < |products| && products[i] == p;
      }
    }
  }

  /** With a non-empty search, a product is shown if and only if its name or its
      description contains the query, ignoring ASCII case, and it passes the
      category and size filters. */
  lemma SearchSemantics(products: seq<Product>, f: MenFilters, p: Product)
    requires f.search != ""
    ensures p in View(products, f) <==>
      && p in products
      && (Contains(Lower(p.name), Lower(f.search)) || Contains(Lower(p.description), Lower(f.search)))
      && (f.category == "all" || InSubCategory(f.category, p.name))
      && (|f.sizes| == 0 || SharesAny(p.sizes, f.sizes))
  {
    ViewContents(products, f);
  }

  /** The three named orders. */
  lemma ViewOrder(products: seq<Product>, f: MenFilters)
    ensures var v := View(products, f);
      && (f.sortBy == "price-low" ==> forall i, j :: 0 <= i < j < |v| ==> v[i].price <= v[j].price)
      && (f.sortBy == "price-high" ==> forall i, j :: 0 <= i < j < |v| ==> v[i].price >= v[j].price)
      && (f.sortBy == "rating" ==> forall i, j :: 0 <= i < j < |v| ==> v[i].rating >= v[j].rating)
  {
    var key := SortKey(f.sortBy);
    SortSorted(Narrow(products, f), key);
    var v := View(products, f);
    assert forall i, j :: 0 <= i < j < |v| ==> key(v[i]) <= key(v[j]);
  }

  /** `sortBy` values the `switch` does not name. */
  predicate SortsFeaturedFirst(sortBy: string)
  {
    sortBy != "price-low" && sortBy != "price-high" && sortBy != "rating"
  }

  /** For `featured`, `newest` and every other unnamed `sortBy`: all featured
      products come first, then the others, each group in its filtered order. */
  lemma ViewFeaturedFirst(products: seq<Product>, f: MenFilters)
    requires SortsFeaturedFirst(f.sortBy)
    ensures View(products, f)
         == Filter(Narrow(products, f), IsFeatured) + Filter(Narrow(products, f), NotFeatured)
  {
    SortTwoTiers(Narrow(products, f), FeaturedFirst, IsFeatured, NotFeatured, -1.0, 0.0);
  }

  /** `toggleSizeFilter`: deselects every copy of a selected size or appends an
      unselected one; the other fields stay. */
  function ToggleSizeFilter(f: MenFilters, size: string): (r: MenFilters)
    ensures r.search == f.search && r.category == f.category && r.sortBy == f.sortBy
    ensures size in r.sizes <==> size !in f.sizes
    ensures forall v :: v != size ==> (v in r.sizes <==> v in f.sizes)
  {
    f.(sizes := Toggle(f.sizes, size))
  }

  /** Toggling the same size twice gives every size its old membership back. */
  lemma ToggleSizeFilterTwice(f: MenFilters, size: string)
    ensures var r := ToggleSizeFilter(ToggleSizeFilter(f, size), size);
      && r.search == f.search && r.category == f.category && r.sortBy == f.sortBy
      && (forall v :: v in r.sizes <==> v in f.sizes)
  {
    ToggleTwice(f.sizes, size);
  }

  /** `clearFilters` puts back the state the page started with. */
  function ClearFilters(): (r: MenFilters)
    ensures r == InitialFilters
  {
    MenFilters("", "all", [], "featured")
  }

  /** After `clearFilters` the page shows every product, featured first, each group
      in its original order. */
  lemma ClearedView(products: seq<Product>)
    ensures View(products, ClearFilters()) == Filter(products, IsFeatured) + Filter(products, NotFeatured)
  {
    ViewFeaturedFirst(products, ClearFilters());
  }
}
