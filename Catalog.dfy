/** The storefront's records (`Product`, `CartItem`) and the small pieces of
    string and number logic the catalog pages share: ASCII lower-casing,
    substring search, the "some element in common" test and the sort keys
    behind the comparators. */
module Catalog {

  datatype Category = Men | Women | Kids | Accessories

  /** The string stored in `product.category`. */
  function CategoryId(c: Category): string
  {
    match c
    case Men => "men"
    case Women => "women"
    case Kids => "kids"
    case Accessories => "accessories"
  }

  /** A catalog entry. `price` and `rating` are exact decimals; `createdAt` is the
      creation time as a millisecond timestamp. */
  datatype Product = Product(
    id: string,
    name: string,
    description: string,
    price: real,
    category: Category,
    images: seq<string>,
    sizes: seq<string>,
    colors: seq<string>,
    stock: int,
    rating: real,
    reviewCount: int,
    featured: bool,
    createdAt: int)

  /** One cart line: a snapshot of the product, how many, and the chosen variant. */
  datatype CartItem = CartItem(product: Product, quantity: int, size: string, color: string)

  predicate IsUpperAscii(c: char)
  {
    'A' <= c <= 'Z'
  }

  /** `toLowerCase` restricted to ASCII: only `A`..`Z` change. */
  function LowerChar(c: char): (r: char)
    ensures !IsUpperAscii(r)
    ensures !IsUpperAscii(c) ==> r == c
    ensures IsUpperAscii(c) ==> r as int - c as int == 32
  {
    if IsUpperAscii(c) then (c as int + 32) as char else c
  }

  function Lower(s: string): (r: string)
    ensures |r| == |s|
    ensures forall i :: 0 <= i < |s| ==> r[i] == LowerChar(s[i])
  {
    seq(|s|, i requires 0 <= i < |s| => LowerChar(s[i]))
  }

  /** Lower-casing leaves no upper-case ASCII letter, so doing it twice changes nothing. */
  lemma LowerIdempotent(s: string)
    ensures forall i :: 0 <= i < |s| ==> !IsUpperAscii(Lower(s)[i])
    ensures Lower(Lower(s)) == Lower(s)
  {
  }

  /** `needle` occurs in `hay` starting at index `i`. */
  predicate OccursAt(hay: string, needle: string, i: nat)
  {
    i + |needle| <= |hay| && hay[i..i + |needle|] == needle
  }

  /** `hay.includes(needle)`: some index of `hay` starts an occurrence of `needle`. */
  predicate Contains(hay: string, needle: string)
    ensures Contains(hay, needle) ==> |needle| <= |hay|
  {
    exists i: nat :: i <= |hay| && OccursAt(hay, needle, i)
  }

  /** Every string contains the empty string. */
  lemma ContainsEmpty(hay: string)
    ensures Contains(hay, "")
  {
    assert OccursAt(hay, "", 0);
  }

  /** A string that contains `t-shirt` already contains `shirt`. */
  lemma TShirtContainsShirt(hay: string)
    requires Contains(hay, "t-shirt")
    ensures Contains(hay, "shirt")
  {
    var i: nat :| i <= |hay| && OccursAt(hay, "t-shirt", i);
    assert hay[i + 2..i + 7] == hay[i..i + 7][2..];
    assert OccursAt(hay, "shirt", i + 2);
  }

  /** `xs.some(v => ys.includes(v))`. */
  predicate SharesAny(xs: seq<string>, ys: seq<string>)
    ensures SharesAny(xs, ys) ==> |xs| > 0 && |ys| > 0
  {
    exists v :: v in xs && v in ys
  }

  /** Sort keys: each comparator of the pages is `(a, b) => Key(a) - Key(b)` for
      one of these, so sorting by it puts smaller keys first. */

  /** `(a, b) => a.price - b.price` */
  function PriceAscending(p: Product): real
  {
    p.price
  }

  /** `(a, b) => b.price - a.price` */
  function PriceDescending(p: Product): real
  {
    -p.price
  }

  /** `(a, b) => b.rating - a.rating` */
  function RatingDescending(p: Product): real
  {
    -p.rating
  }

  /** `(a, b) => b.createdAt - a.createdAt` on timestamps */
  function NewestFirst(p: Product): real
  {
    -(p.createdAt as real)
  }

  /** `(a, b) => (b.featured ? 1 : 0) - (a.featured ? 1 : 0)` */
  function FeaturedFirst(p: Product): real
  {
    if p.featured then -1.0 else 0.0
  }

  /** The page comparators as written; `sort` puts `a` first when the result is negative. */
  function PriceLowCompare(a: Product, b: Product): real
  {
    a.price - b.price
  }

  function PriceHighCompare(a: Product, b: Product): real
  {
    b.price - a.price
  }

  function RatingCompare(a: Product, b: Product): real
  {
    b.rating - a.rating
  }

  function NewestCompare(a: Product, b: Product): real
  {
    (b.createdAt - a.createdAt) as real
  }

  function FeaturedCompare(a: Product, b: Product): real
  {
    (if b.featured then 1.0 else 0.0) - (if a.featured then 1.0 else 0.0)
  }

  /** Each comparator is the difference of its key, so sorting with it is sorting by
      that key in non-decreasing order. */
  lemma ComparatorsAreKeyDifferences(a: Product, b: Product)
    ensures PriceLowCompare(a, b) == PriceAscending(a) - PriceAscending(b)
    ensures PriceHighCompare(a, b) == PriceDescending(a) - PriceDescending(b)
    ensures RatingCompare(a, b) == RatingDescending(a) - RatingDescending(b)
    ensures NewestCompare(a, b) == NewestFirst(a) - NewestFirst(b)
    ensures FeaturedCompare(a, b) == FeaturedFirst(a) - FeaturedFirst(b)
  {
  }

  predicate IsFeatured(p: Product)
  {
    p.featured
  }

  predicate NotFeatured(p: Product)
  {
    !p.featured
  }
}
