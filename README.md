# Storefront cart and catalog filters, in Dafny

This project models the logic core of a React clothing storefront:

- **The cart** (`src/context/CartContext.tsx`). A cart is a list of lines. Each line is
  a product snapshot, a quantity, a size and a colour. A line is identified by
  (product id, size, colour). `addToCart` merges into an existing line or appends one.
  `removeFromCart` drops every matching line. `updateQuantity` sets the quantity of
  matching lines and removes them when the quantity is zero or less. `clearCart`
  empties the list. `total` and `itemCount` are folds over the lines.
  - Module `Cart` holds the transitions as pure functions of the previous list
    (`AddLine`, `RemoveLines`, `UpdateLines`).
  - Class `Cart.CartStore` holds the `items` state. Its methods assign those
    functions' results.
  - A ghost field `persisted` stands for the copy written to local storage after
    every change.
- **The catalog page** (`src/pages/Products.tsx`), module `ProductsPage`. It selects
  the route's category, then filters by an inclusive price range, sizes, colours and
  a minimum rating. It then sorts with the comparator chosen by `sortBy`. It also
  has the filter toggles and the reset.
- **The men's page** (`src/pages/MenPage.tsx`), module `MenPage`. It has a
  case-insensitive search over name and description, and a sub-category guessed
  from keywords in the product name. It has a size filter and a sort without
  `newest`, plus its toggle and reset.

Shared pieces:

- `Catalog` holds the records of `src/types/index.ts`, ASCII lower-casing, the
  substring test and the sort keys.
- `Seqs` holds `filter`, the guarded filter stage, the array copy and the toggle.
- `StableSort` models `Array.prototype.sort`, which is stable (section 22.1.3.27
  of ECMA-262, 10th edition). Every comparator in these pages has the form
  `(a, b) => key(a) - key(b)`. A stable sort with such a comparator has exactly
  one possible result: keys in non-decreasing order, with ties kept in input
  order. `StableSort.Sort` defines that result as an insertion sort.
  `StableSort.SortInPlace` sorts an array in place and is proved to produce it.

Each page's filter effect is the method `ApplyFilters`. The page's `products` list
is an array. The effect copies it, and each active stage replaces the copy with the
fresh array `filter` returns (`NarrowCopy`). The effect then sorts that fresh array
in place. `products` is not in any `modifies` clause, so the model cannot sort it in
place. `ApplyFilters`'s `ensures` ties the result to the function `View`, and the
lemmas state what `View` promises.

## Model

| member | source | states |
|---|---|---|
| Seqs.Filter | src/pages/Products.tsx:42-63 | `filter` keeps only elements satisfying the predicate, and every such element of the input is kept |
| Seqs.FilterMembership | src/pages/Products.tsx:39-63 | an element is in a filtered list exactly when it is in the input and passes the predicate |
| Seqs.FilterIsSubsequence | src/pages/Products.tsx:39-63 | a filtered list keeps the relative order of the input |
| Seqs.FilterCount | src/pages/Products.tsx:39-63 | a filtered list holds each kept element as many times as the input, and each dropped one zero times |
| Seqs.FilterThen | src/pages/Products.tsx:39-63 | two filters in a row equal one filter by the conjunction |
| Seqs.FilterCommutes | src/pages/Products.tsx:39-63 | two filters may run in either order |
| Seqs.SwitchedStage | src/pages/MenPage.tsx:175-214 | a stage run only when its switch is on (`if (...) filtered = filtered.filter(p)`) equals a filter by the predicate with the switch folded in |
| Seqs.ToArray | src/pages/Products.tsx:39 | the spread copy and each array `filter` returns are fresh arrays holding exactly the given elements |
| Seqs.Toggle | src/pages/Products.tsx:96-98 | the toggled value is present afterwards iff it was absent before; every other value keeps its membership |
| Seqs.ToggleTwice | src/pages/MenPage.tsx:241-243 | toggling twice restores every value's membership; an absent value gives back the same list |
| StableSort.SortPermutes | src/pages/Products.tsx:66-81 | sorting only rearranges: same multiset |
| StableSort.SortMembership | src/pages/Products.tsx:66-81 | sorting neither adds nor loses an element |
| StableSort.SortSorted | src/pages/Products.tsx:66-81 | sorting leaves keys non-decreasing |
| StableSort.SortStable | src/pages/Products.tsx:66-81 | elements with equal keys keep their input order |
| StableSort.SortTwoTiers | src/pages/Products.tsx:79-81 | a two-valued key turns the sort into a partition: the lower-key group first, then the rest, each in input order |
| StableSort.Insert | src/pages/Products.tsx:68 | one insertion step of the sort puts the element behind the last one with a key not greater than its own and adds exactly one element; `InsertPermutes`, `InsertSorted` and `InsertKeepsClass` prove the rest |
| StableSort.Sort | src/pages/Products.tsx:66-81 | the unique result of a stable sort with a `key(a) - key(b)` comparator; it keeps the length, and `SortPermutes`, `SortSorted` and `SortStable` prove it a permutation, sorted by key, with ties in input order |
| StableSort.InsertAt | src/pages/Products.tsx:68 | one in-place insertion step produces the functional insertion and leaves the rest of the array alone |
| StableSort.SortInPlace | src/pages/Products.tsx:68 | sorting an array in place leaves exactly `Sort` of its old contents |
| Catalog.LowerChar | src/pages/MenPage.tsx:177 | `toLowerCase` on one character: A–Z move up by 32 to a–z; every other character stays |
| Catalog.Lower | src/pages/MenPage.tsx:177-178 | lower-casing keeps the length and lower-cases each character |
| Catalog.LowerIdempotent | src/pages/MenPage.tsx:177-178 | lower-cased text has no upper-case ASCII letter, so lower-casing again changes nothing |
| Catalog.Contains | src/pages/MenPage.tsx:177 | `includes`: some position of the text starts an occurrence of the query; a match needs the query to be no longer than the text |
| Catalog.ContainsEmpty | src/pages/MenPage.tsx:175-180 | every string contains the empty string, which is why an empty search would keep every product (used by `MenPage.EmptySearchKeepsAll`) |
| Catalog.SharesAny | src/pages/Products.tsx:49 | `some(v => filter.includes(v))`: the two lists have a value in common; it never holds when either list is empty, which is why the stages are guarded by `length > 0` |
| Catalog.PriceAscending | src/pages/Products.tsx:68 | the key behind `a.price - b.price`: price |
| Catalog.PriceDescending | src/pages/Products.tsx:71 | the key behind `b.price - a.price`: minus the price |
| Catalog.RatingDescending | src/pages/Products.tsx:74 | the key behind `b.rating - a.rating`: minus the rating |
| Catalog.NewestFirst | src/pages/Products.tsx:77 | the key behind the `created_at` comparator: minus the creation timestamp |
| Catalog.FeaturedFirst | src/pages/Products.tsx:80 | the key behind the featured comparator: -1 for featured products, 0 for the others |
| Catalog.ComparatorsAreKeyDifferences | src/pages/Products.tsx:66-81 | each of the five comparators, written out as in the source, equals the difference of its key, so each sort orders by that key |
| Catalog.TShirtContainsShirt | src/pages/MenPage.tsx:188-190 | a name containing `t-shirt` contains `shirt` |
| Cart.FindLine | src/context/CartContext.tsx:32-34 | `find` returns the first line with the identity, or none when no line has it |
| Cart.AddLine | src/context/CartContext.tsx:30-47 | merge case: the length stays, the first matching line gains `quantity` and keeps its snapshot, every other line stays. No match: the new line is appended |
| Cart.RemoveLines | src/context/CartContext.tsx:50-53 | no remaining line has the identity, and every line without it remains |
| Cart.UpdateLines | src/context/CartContext.tsx:57-68 | quantity <= 0 gives exactly `RemoveLines`; otherwise the length stays, matching lines take the quantity and others are unchanged |
| Cart.SetQuantity | src/context/CartContext.tsx:63-67 | the `map` keeps the length; every matching line takes the new quantity, every other line is unchanged |
| Cart.ItemCount | src/context/CartContext.tsx:76 | the `itemCount` fold: the sum of the lines' quantities, left to right. Its change under add is proved in `AddLineCounts`, under remove in `RemoveLinesCounts`, under update in `UpdateLinesCounts` and under clear in `CartStore.ClearCart` |
| Cart.Total | src/context/CartContext.tsx:75 | the `total` fold: the sum of price times quantity over the lines, left to right. Its change under add is proved in `AddLineCounts`, under remove in `RemoveLinesCounts`, under update in `UpdateLinesCounts` and under clear in `CartStore.ClearCart` |
| Cart.FoldsBounded | src/context/CartContext.tsx:75-76 | with quantities of at least 1, `itemCount` is at least the number of lines; with non-negative prices and quantities, `total` is non-negative |
| Cart.CountsAppend | src/context/CartContext.tsx:75-76 | appending a line adds its quantity to `itemCount` and price times quantity to `total` |
| Cart.CountsReplace | src/context/CartContext.tsx:75-76 | replacing one line changes both folds by that line's difference alone |
| Cart.AddLineCounts | src/context/CartContext.tsx:30-76 | `itemCount` grows by exactly `quantity` in both branches. `total` grows by `quantity` times the price of the line that received it: on a merge that is the line's own snapshot price, not the argument's; otherwise it is the argument's price |
| Cart.AddMergedCounts | src/context/CartContext.tsx:38-42 | on a merge into line `i`, `itemCount` grows by `quantity` and `total` by `quantity` times line `i`'s snapshot price |
| Cart.AddAppendedCounts | src/context/CartContext.tsx:45-46 | on an append, `itemCount` grows by `quantity` and `total` by `quantity` times the argument's price |
| Cart.FoldsSplit | src/context/CartContext.tsx:75-76 | splitting the lines by a predicate and its negation splits both folds: the two parts add up to the whole |
| Cart.RemoveLinesCounts | src/context/CartContext.tsx:50-53 | after removal, `itemCount` and `total` drop by exactly the fold of the removed lines, those with the identity |
| Cart.UpdateLinesCounts | src/context/CartContext.tsx:57-68 | with a positive quantity and unique identities: with no matching line both folds stay; otherwise they change by the matching line's difference alone, from its old quantity to the new one at its own price. A quantity of 0 or less is a removal, covered by `RemoveLinesCounts` since `UpdateLines` is then `RemoveLines` |
| Cart.UpdateOneLineCounts | src/context/CartContext.tsx:63-67 | the fold change of updating the single matching line `i` |
| Cart.UpdateOneLine | src/context/CartContext.tsx:63-67 | with unique identities, the `map` changes only the first matching line |
| Cart.MergeCounts | src/context/CartContext.tsx:38-42 | bumping one line's quantity adds that amount to `itemCount` and that amount times its price to `total` |
| Cart.RemoveKeepsOrder | src/context/CartContext.tsx:50-53 | removal keeps the remaining lines in order, with multiplicity, and drops every matching line |
| Cart.RemoveNoMatch | src/context/CartContext.tsx:50-53 | removal is a no-op when no line matches |
| Cart.RemoveTwice | src/context/CartContext.tsx:50-53 | removing twice equals removing once |
| Cart.UpdateNoMatch | src/context/CartContext.tsx:57-67 | updating an identity the cart lacks leaves it unchanged, for any quantity |
| Cart.AddLineKeepsKeysUnique | src/context/CartContext.tsx:30-47 | adding keeps line identities unique |
| Cart.FilterKeepsKeysUnique | src/context/CartContext.tsx:50-53 | removing keeps line identities unique |
| Cart.UpdateLinesKeepsKeysUnique | src/context/CartContext.tsx:57-68 | updating keeps line identities unique |
| Cart.ReplayKeepsKeysUnique | src/context/CartContext.tsx:30-73 | any sequence of add/remove/update/clear keeps line identities unique |
| Cart.ReplayFromEmpty | src/context/CartContext.tsx:30-73 | starting from `[]`, no sequence of operations produces two lines with one identity |
| Cart.CartStore.constructor | src/context/CartContext.tsx:18-24 | the store starts from the stored list, which is also what storage holds |
| Cart.CartStore.AddToCart | src/context/CartContext.tsx:30-48 | the new list is `AddLine` of the old; `itemCount` grows by `quantity`; unique identities stay unique; storage is in sync |
| Cart.CartStore.RemoveFromCart | src/context/CartContext.tsx:50-55 | the new list is `RemoveLines` of the old; unique identities stay unique; storage is in sync |
| Cart.CartStore.UpdateQuantity | src/context/CartContext.tsx:57-68 | the new list is `UpdateLines` of the old, through `removeFromCart` when quantity <= 0; storage is in sync |
| Cart.CartStore.ClearCart | src/context/CartContext.tsx:70-76 | the list is empty and `itemCount` and `total` are 0 |
| ProductsPage.SelectBase | src/pages/Products.tsx:28-31 | no route category, empty or `all` gives the whole catalog; otherwise exactly the products of that category |
| ProductsPage.SelectBaseInOrder | src/pages/Products.tsx:28-31 | the category's products keep catalog order and multiplicity |
| ProductsPage.Keep | src/pages/Products.tsx:42-63 | what the four stages keep together: an inclusive price range, then sizes, colours and rating, each only when set; `NarrowIsOneFilter` and `ViewContents` prove the pipeline keeps exactly this |
| ProductsPage.Narrow | src/pages/Products.tsx:39-63 | the stages in the source's order, each switched-off stage skipped; `NarrowIsOneFilter` proves it one order-preserving filter by `Keep` |
| ProductsPage.SortKey | src/pages/Products.tsx:66-81 | the key of the comparator the `switch` picks, `featured` for any other value; `ViewOrder` and `ViewFeaturedFirst` prove the resulting orders |
| ProductsPage.View | src/pages/Products.tsx:38-84 | the list shown: the narrowed list sorted by the chosen key; its contents and order are proved in `ViewContents`, `ViewOrder`, `ViewStable` and `ViewFeaturedFirst` |
| ProductsPage.NarrowByStages | src/pages/Products.tsx:39-63 | skipping a switched-off stage equals filtering by that stage with its switch folded in |
| ProductsPage.NarrowIsOneFilter | src/pages/Products.tsx:39-63 | the staged pipeline is one order-preserving filter by the conjunction of all active filters |
| ProductsPage.StageOrderIrrelevant | src/pages/Products.tsx:39-63 | running the four stages in reverse order keeps the same list |
| ProductsPage.NarrowCopy | src/pages/Products.tsx:39-63 | copying `products` and replacing the copy stage by stage yields a fresh array holding exactly `Narrow` of `products` |
| ProductsPage.ApplyFilters | src/pages/Products.tsx:38-84 | the effect returns a fresh array holding exactly `View` of `products`; `products` is not in the `modifies` clause and is unchanged, because only the copy is sorted in place |
| ProductsPage.ViewMembership | src/pages/Products.tsx:39-81 | a product is shown exactly when it is in the input and passes every active filter |
| ProductsPage.ViewContents | src/pages/Products.tsx:39-63 | the output is a permutation of the filtered list. Every shown product is in range (inclusive), shares a size or colour with non-empty filters, and meets a positive rating. Every product passing them is shown |
| ProductsPage.ViewOrder | src/pages/Products.tsx:66-78 | `price-low` gives non-decreasing price; `price-high`, `rating` and `newest` give non-increasing price, rating and timestamp |
| ProductsPage.ViewStable | src/pages/Products.tsx:66-81 | products the comparator ranks equal keep their filtered order |
| ProductsPage.ViewFeaturedFirst | src/pages/Products.tsx:79-81 | `featured` or any unrecognised `sortBy` gives all featured products, then the rest, each group in filtered order |
| ProductsPage.ToggleArrayFilter | src/pages/Products.tsx:93-100 | only the named list changes; the value's membership flips and every other value's stays |
| ProductsPage.ToggleArrayFilterTwice | src/pages/Products.tsx:93-100 | toggling twice restores membership in both lists and leaves the other fields |
| ProductsPage.InitialFiltersKeep | src/pages/Products.tsx:17-23 | in the initial state only the price range is in effect: a product passes exactly when its price is between 0 and 200, and the sort is featured-first |
| ProductsPage.ClearFilters | src/pages/Products.tsx:102-110 | the reset state equals the initial state |
| ProductsPage.ClearedView | src/pages/Products.tsx:102-110 | after the reset, the page shows products priced 0 to 200, featured first, each group in order |
| MenPage.MatchesSearch | src/pages/MenPage.tsx:176-178 | the search predicate: the lower-cased query occurs in the lower-cased name or the lower-cased description; `SearchSemantics` proves the page keeps exactly these products |
| MenPage.InSubCategory | src/pages/MenPage.tsx:185-205 | the keyword table on the lower-cased name (tops, bottoms, outerwear, accessories), and true for every other id; `TopsKeywordsRedundant`, `CategoryIgnoresDescription` and `UnknownCategoryIsAll` prove its properties |
| MenPage.Narrow | src/pages/MenPage.tsx:172-214 | the search, category and size stages in the source's order, each skipped when switched off; `NarrowIsOneFilter` proves it one order-preserving filter |
| MenPage.EmptySearchKeepsAll | src/pages/MenPage.tsx:175-180 | with an empty query the search filter would keep every product, so skipping it for an empty query changes nothing |
| MenPage.NarrowIsOneFilter | src/pages/MenPage.tsx:172-214 | the staged pipeline is one order-preserving filter by the conjunction of all active filters |
| MenPage.TopsKeywordsRedundant | src/pages/MenPage.tsx:188-190 | `tops` is exactly "name contains `shirt` or `sweater`"; the `t-shirt` keyword adds nothing |
| MenPage.CategoryIgnoresDescription | src/pages/MenPage.tsx:186-202 | the sub-category looks at the name only: products with equal names are classified alike |
| MenPage.UnknownCategoryIsAll | src/pages/MenPage.tsx:203-204 | a category id without keywords narrows nothing, exactly like `all` |
| MenPage.SortKey | src/pages/MenPage.tsx:217-229 | the key of the comparator the `switch` picks; there is no `newest` case, so every other value is `featured`; `ViewOrder` and `ViewFeaturedFirst` prove the resulting orders |
| MenPage.View | src/pages/MenPage.tsx:171-232 | the list shown: the narrowed list sorted by the chosen key; its contents and order are proved in `ViewContents`, `SearchSemantics`, `ViewOrder` and `ViewFeaturedFirst` |
| MenPage.NarrowCopy | src/pages/MenPage.tsx:172-214 | copying `products` and replacing the copy stage by stage yields a fresh array holding exactly `Narrow` of `products`; with no stage active it is the copy itself |
| MenPage.ApplyFilters | src/pages/MenPage.tsx:171-232 | the effect returns a fresh array holding exactly `View` of `products`; `products` is not in the `modifies` clause and is unchanged, because only the copy is sorted in place, even when no stage is active |
| MenPage.ViewContents | src/pages/MenPage.tsx:172-214 | the output is a permutation of the filtered list; a product is shown iff it is in `products` and passes every active stage |
| MenPage.SearchSemantics | src/pages/MenPage.tsx:175-180 | with a non-empty search, a product is shown iff its lower-cased name or description contains the lower-cased query and it passes the other stages |
| MenPage.ViewOrder | src/pages/MenPage.tsx:217-226 | `price-low` gives non-decreasing price; `price-high` and `rating` give non-increasing price and rating |
| MenPage.ViewFeaturedFirst | src/pages/MenPage.tsx:227-228 | every other `sortBy`, `newest` included, gives featured products first, then the rest, each group in filtered order |
| MenPage.ToggleSizeFilter | src/pages/MenPage.tsx:238-245 | the size's membership flips, every other size's stays, and other fields are unchanged |
| MenPage.ToggleSizeFilterTwice | src/pages/MenPage.tsx:238-245 | toggling twice restores every size's membership and leaves the other fields |
| MenPage.InitialFiltersKeepAll | src/pages/MenPage.tsx:155-160 | in the initial state every stage is switched off, so every product passes, and the sort is featured-first |
| MenPage.ClearFilters | src/pages/MenPage.tsx:247-254 | the reset state equals the initial state |
| MenPage.ClearedView | src/pages/MenPage.tsx:247-254 | after the reset, the page shows every product, featured first, each group in its original order |

## Left out

- Local storage and JSON: reading the `cart` entry, `JSON.parse` and `JSON.stringify` are browser I/O. The stored list is a constructor parameter, and the write-back is the ghost field `persisted`. A malformed stored value makes `JSON.parse` throw; that failure is not modelled.
- Toast notifications are a side effect of a foreign library and do not affect the list.
- The `setTimeout` simulated loading and the `loading` flag are asynchronous plumbing. Only the synchronous category selection is modelled (`SelectBase`).
- Rendering, animation, routing, `useParams` and the components are presentation. The route's category is an `Option<string>` parameter.
- `handleFilterChange` writes any key with an untyped value. It is not modelled; filter states are plain values of the datatypes.
- Floating point: prices, ratings and the `total` sum are exact reals. Rounding and `toFixed` formatting are not captured.
- `created_at` is an ISO date string parsed by `new Date`. It is modelled as an integer timestamp.
- `toLowerCase` is modelled on ASCII letters only. Unicode case mapping is not captured.
- Quantities are unbounded integers. JavaScript numbers may be fractional or lose precision; neither is captured.
- `useCart` throwing outside a provider is React context plumbing.
- The static product fixtures are data, not logic.
- Cart.UpdateLinesCounts: requires unique line identities. Every cart operation preserves unique identities (`ReplayKeepsKeysUnique`); with duplicates, every matching line would change and the fold change would be their sum.
- Cart.AddLine: `item === existingItem` compares object identity. It is modelled as "the line at the index `find` returned". Every line is a distinct object, so this is the same line.
- StableSort.Sort: `Array.prototype.sort` leaves the algorithm open. Any stable sort with these comparators gives the same result, so an insertion sort stands for it.
- Cart.CartStore.UpdateQuantity and the other store methods state their new list in terms of the pure functions. React's batching of `setItems` updaters is not modelled: each call sees the previous call's list.
