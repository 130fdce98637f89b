/** The cart store: a list of cart lines identified by (product id, size, colour),
    the four operations that replace that list, and the two totals derived from it.
    The operations are pure functions of the previous list (`AddLine`,
    `RemoveLines`, `UpdateLines`); `CartStore` is the stateful container that
    assigns their results and writes every new list through to storage. */
module Cart {
  import opened Catalog
  import opened Seqs

  /** The filter `item.product.id === productId && item.size === size && item.color === color`. */
  predicate SameKey(item: CartItem, productId: string, size: string, color: string)
  {
    item.product.id == productId && item.size == size && item.color == color
  }

  /** Two lines with the same identity. */
  predicate SameLine(a: CartItem, b: CartItem)
  {
    SameKey(a, b.product.id, b.size, b.color)
  }

  /** No two lines of the cart share an identity. */
  ghost predicate KeysUnique(items: seq<CartItem>)
  {
    forall i, j :: 0 <= i < j < |items| ==> !SameLine(items[i], items[j])
  }

  /** Line `i` is the first one with the given identity. */
  predicate IsFirstMatch(items: seq<CartItem>, productId: string, size: string, color: string, i: int)
  {
    && 0 <= i < |items|
    && SameKey(items[i], productId, size, color)
    && forall j :: 0 <= j < i ==> !SameKey(items[j], productId, size, color)
  }

  /** `prev.find(...)`: the position of the first line with the given identity. */
  function FindLine(items: seq<CartItem>, productId: string, size: string, color: string): (r: Option<nat>)
    ensures r.Some? ==> r.value < |items| && SameKey(items[r.value], productId, size, color)
    ensures r.Some? ==> forall j :: 0 <= j < r.value ==> !SameKey(items[j], productId, size, color)
    ensures r.None? ==> forall j :: 0 <= j < |items| ==> !SameKey(items[j], productId, size, color)
  {
    if items == [] then None
    else if SameKey(items[0], productId, size, color) then Some(0)
    else match FindLine(items[1..], productId, size, color)
      case None => None
      case Some(i) => Some(i + 1)
  }

  /** `addToCart`: when a line with the same identity exists, the first such line
      (the one `find` returned; every line is a distinct object, so `item ===
      existingItem` holds for it alone) gets `quantity` added and keeps its own
      product snapshot; otherwise a new line is appended. */
  function AddLine(items: seq<CartItem>, product: Product, quantity: int, size: string, color: string): (r: seq<CartItem>)
    ensures (forall j :: 0 <= j < |items| ==> !SameKey(items[j], product.id, size, color)) ==>
      r == items + [CartItem(product, quantity, size, color)]
    ensures forall i {:trigger IsFirstMatch(items, product.id, size, color, i)} ::
      IsFirstMatch(items, product.id, size, color, i) ==>
      && |r| == |items|
      && r[i] == items[i].(quantity := items[i].quantity + quantity)
      && r[i].product == items[i].product
    ensures forall i, k :: IsFirstMatch(items, product.id, size, color, i) && 0 <= k < |r| && k != i ==>
      r[k] == items[k]
  {
    match FindLine(items, product.id, size, color)
    case Some(i) => items[i := items[i].(quantity := items[i].quantity + quantity)]
    case None => items + [CartItem(product, quantity, size, color)]
  }

  /** The predicate kept by `removeFromCart`'s filter. */
  function NotLine(productId: string, size: string, color: string): CartItem -> bool
  {
    item => !SameKey(item, productId, size, color)
  }

  /** `removeFromCart`: drops every line with the given identity. */
  function RemoveLines(items: seq<CartItem>, productId: string, size: string, color: string): (r: seq<CartItem>)
    ensures forall i :: 0 <= i < |r| ==> !SameKey(r[i], productId, size, color) && r[i] in items
    ensures forall i :: 0 <= i < |items| && !SameKey(items[i], productId, size, color) ==> items[i] in r
  {
    Filter(items, NotLine(productId, size, color))
  }

  /** The `map` of `updateQuantity`: every line with the identity gets the new quantity. */
  function SetQuantity(items: seq<CartItem>, productId: string, size: string, color: string, quantity: int): (r: seq<CartItem>)
    ensures |r| == |items|
    ensures forall i :: 0 <= i < |items| && SameKey(items[i], productId, size, color) ==>
      r[i] == items[i].(quantity := quantity)
    ensures forall i :: 0 <= i < |items| && !SameKey(items[i], productId, size, color) ==> r[i] == items[i]
  {
    seq(|items|, i requires 0 <= i < |items| =>
      if SameKey(items[i], productId, size, color) then items[i].(quantity := quantity) else items[i])
  }

  /** `updateQuantity`: a quantity of zero or less removes the lines; otherwise every
      matching line takes the new quantity and nothing else moves. */
  function UpdateLines(items: seq<CartItem>, productId: string, size: string, color: string, quantity: int): (r: seq<CartItem>)
    ensures quantity <= 0 ==> r == RemoveLines(items, productId, size, color)
    ensures quantity > 0 ==> |r| == |items|
    ensures quantity > 0 ==> forall i :: 0 <= i < |items| ==>
      && (SameKey(items[i], productId, size, color) ==> r[i] == items[i].(quantity := quantity))
      && (!SameKey(items[i], productId, size, color) ==> r[i] == items[i])
  {
    if quantity <= 0 then RemoveLines(items, productId, size, color)
    else SetQuantity(items, productId, size, color, quantity)
  }

  /** `items.reduce((sum, item) => sum + item.quantity, 0)` */
  function ItemCount(items: seq<CartItem>): int
  {
    if items == [] then 0 else ItemCount(items[..|items| - 1]) + items[|items| - 1].quantity
  }

  /** `items.reduce((sum, item) => sum + item.product.price * item.quantity, 0)` */
  function Total(items: seq<CartItem>): real
  {
    if items == [] then 0.0
    else Total(items[..|items| - 1]) + items[|items| - 1].product.price * items[|items| - 1].quantity as real
  }

  /** With positive quantities the badge count is at least the number of lines, and
      with non-negative prices and quantities the total is never negative. */
  lemma {:induction false} FoldsBounded(items: seq<CartItem>)
    ensures (forall i :: 0 <= i < |items| ==> items[i].quantity >= 1) ==> ItemCount(items) >= |items|
    ensures (forall i :: 0 <= i < |items| ==> items[i].quantity >= 0 && items[i].product.price >= 0.0)
      ==> Total(items) >= 0.0
  {
    if items != [] {
      var init, last := items[..|items| - 1], items[|items| - 1];
      FoldsBounded(init);
      assert forall i :: 0 <= i < |init| ==> init[i] == items[i];
      assert last.quantity >= 0 && last.product.price >= 0.0 ==>
        last.product.price * last.quantity as real >= 0.0;
    }
  }

  /** Appending a line adds its quantity and its price times quantity. */
  lemma CountsAppend(items: seq<CartItem>, x: CartItem)
    ensures ItemCount(items + [x]) == ItemCount(items) + x.quantity
    ensures Total(items + [x]) == Total(items) + x.product.price * x.quantity as real
  {
    assert (items + [x])[..|items|] == items;
  }

  /** Replacing one line changes the totals by the difference of that line alone. */
  lemma {:induction false} CountsReplace(items: seq<CartItem>, i: nat, v: CartItem)
    requires i < |items|
    ensures ItemCount(items[i := v]) == ItemCount(items) - items[i].quantity + v.quantity
    ensures Total(items[i := v]) == Total(items)
      - items[i].product.price * items[i].quantity as real + v.product.price * v.quantity as real
  {
    var init, last := items[..|items| - 1], items[|items| - 1];
    if i == |items| - 1 {
      assert items[i := v] == init + [v];
      CountsAppend(init, v);
    } else {
      CountsReplace(init, i, v);
      assert items[i := v] == init[i := v] + [last];
      CountsAppend(init[i := v], last);
    }
  }

  /** `itemCount` grows by exactly `quantity` after `addToCart`, in both branches;
      `total` grows by `quantity` times the price of the line that received it,
      which for a merge is the OLD snapshot's price, not the argument's. */
  lemma AddLineCounts(items: seq<CartItem>, product: Product, quantity: int, size: string, color: string)
    ensures ItemCount(AddLine(items, product, quantity, size, color)) == ItemCount(items) + quantity
    ensures FindLine(items, product.id, size, color).Some? ==>
      var i := FindLine(items, product.id, size, color).value;
      Total(AddLine(items, product, quantity, size, color)) == Total(items) + items[i].product.price * quantity as real
    ensures FindLine(items, product.id, size, color).None? ==>
      Total(AddLine(items, product, quantity, size, color)) == Total(items) + product.price * quantity as real
  {
    match FindLine(items, product.id, size, color)
    case Some(i) => AddMergedCounts(items, product, quantity, size, color, i);
    case None => AddAppendedCounts(items, product, quantity, size, color);
  }

  /** The merge branch of `AddLineCounts`. */
  lemma AddMergedCounts(items: seq<CartItem>, product: Product, quantity: int, size: string, color: string, i: nat)
    requires FindLine(items, product.id, size, color) == Some(i)
    ensures ItemCount(AddLine(items, product, quantity, size, color)) == ItemCount(items) + quantity
    ensures Total(AddLine(items, product, quantity, size, color)) == Total(items) + items[i].product.price * quantity as real
  {
    AddLineMerges(items, product, quantity, size, color, i);
    MergeCounts(items, i, quantity);
  }

  /** When a line for the same product, size and colour exists, adding increments that
      line in place. */
  lemma AddLineMerges(items: seq<CartItem>, product: Product, quantity: int, size: string, color: string, i: nat)
    requires FindLine(items, product.id, size, color) == Some(i)
    ensures i < |items|
    ensures AddLine(items, product, quantity, size, color)
         == items[i := items[i].(quantity := items[i].quantity + quantity)]
  {
  }

  /** The append branch of `AddLineCounts`. */
  lemma AddAppendedCounts(items: seq<CartItem>, product: Product, quantity: int, size: string, color: string)
    requires FindLine(items, product.id, size, color).None?
    ensures ItemCount(AddLine(items, product, quantity, size, color)) == ItemCount(items) + quantity
    ensures Total(AddLine(items, product, quantity, size, color)) == Total(items) + product.price * quantity as real
  {
    assert AddLine(items, product, quantity, size, color)
        == items + [CartItem(product, quantity, size, color)];
    CountsAppend(items, CartItem(product, quantity, size, color));
  }

  lemma MergeCounts(items: seq<CartItem>, i: nat, quantity: int)
    requires i < |items|
    ensures var r := items[i := items[i].(quantity := items[i].quantity + quantity)];
      && ItemCount(r) == ItemCount(items) + quantity
      && Total(r) == Total(items) + items[i].product.price * quantity as real
  {
    var line := items[i];
    CountsReplace(items, i, line.(quantity := line.quantity + quantity));
    assert line.product.price * (line.quantity + quantity) as real
      == line.product.price * line.quantity as real + line.product.price * quantity as real;
  }

  /** `removeFromCart` keeps the other lines in their order and with their multiplicity. */
  lemma RemoveKeepsOrder(items: seq<CartItem>, productId: string, size: string, color: string)
    ensures IsSubsequence(RemoveLines(items, productId, size, color), items)
    ensures forall x ::
      multiset(RemoveLines(items, productId, size, color))[x] ==
      (if SameKey(x, productId, size, color) then 0 else multiset(items)[x])
  {
    FilterIsSubsequence(items, NotLine(productId, size, color));
    forall x {
      FilterCount(items, NotLine(productId, size, color), x);
    }
  }

  /** Removing an identity the cart does not hold changes nothing. */
  lemma RemoveNoMatch(items: seq<CartItem>, productId: string, size: string, color: string)
    requires forall i :: 0 <= i < |items| ==> !SameKey(items[i], productId, size, color)
    ensures RemoveLines(items, productId, size, color) == items
  {
    FilterKeepsAll(items, NotLine(productId, size, color));
  }

  /** Removing twice is removing once. */
  lemma RemoveTwice(items: seq<CartItem>, productId: string, size: string, color: string)
    ensures RemoveLines(RemoveLines(items, productId, size, color), productId, size, color)
         == RemoveLines(items, productId, size, color)
  {
    FilterIdempotent(items, NotLine(productId, size, color));
  }

  /** Updating an identity the cart does not hold changes nothing, whatever the quantity. */
  lemma UpdateNoMatch(items: seq<CartItem>, productId: string, size: string, color: string, quantity: int)
    requires forall i :: 0 <= i < |items| ==> !SameKey(items[i], productId, size, color)
    ensures UpdateLines(items, productId, size, color, quantity) == items
  {
    if quantity <= 0 {
      RemoveNoMatch(items, productId, size, color);
    }
  }

  /** The predicate "has this identity", the complement of `NotLine`. */
  function IsLine(productId: string, size: string, color: string): CartItem -> bool
  {
    item => SameKey(item, productId, size, color)
  }

  /** Both folds split over a filter and its complement. */
  lemma {:induction false} FoldsSplit(items: seq<CartItem>, p: CartItem -> bool, q: CartItem -> bool)
    requires forall x :: q(x) == !p(x)
    ensures ItemCount(Filter(items, p)) + ItemCount(Filter(items, q)) == ItemCount(items)
    ensures Total(Filter(items, p)) + Total(Filter(items, q)) == Total(items)
  {
    if items != [] {
      var init, last := items[..|items| - 1], items[|items| - 1];
      assert items == init + [last];
      FoldsSplit(init, p, q);
      FilterAppend(init, [last], p);
      FilterAppend(init, [last], q);
      if p(last) {
        assert Filter([last], p) == [last] && Filter([last], q) == [];
        CountsAppend(Filter(init, p), last);
        assert Filter(init, q) + [] == Filter(init, q);
      } else {
        assert Filter([last], p) == [] && Filter([last], q) == [last];
        CountsAppend(Filter(init, q), last);
        assert Filter(init, p) + [] == Filter(init, p);
      }
      CountsAppend(init, last);
    }
  }

  /** `removeFromCart` lowers `itemCount` and `total` by exactly what the removed
      lines contributed. */
  lemma RemoveLinesCounts(items: seq<CartItem>, productId: string, size: string, color: string)
    ensures var removed := Filter(items, IsLine(productId, size, color));
      && ItemCount(RemoveLines(items, productId, size, color)) == ItemCount(items) - ItemCount(removed)
      && Total(RemoveLines(items, productId, size, color)) == Total(items) - Total(removed)
  {
    FoldsSplit(items, NotLine(productId, size, color), IsLine(productId, size, color));
  }

  /** `updateQuantity` with a positive quantity on a cart whose identities are unique:
      the matching line's quantity is replaced, so both folds change by that line's
      difference alone; with no matching line nothing changes. */
  lemma UpdateLinesCounts(items: seq<CartItem>, productId: string, size: string, color: string, quantity: int)
    requires quantity > 0 && KeysUnique(items)
    ensures (forall j :: 0 <= j < |items| ==> !SameKey(items[j], productId, size, color)) ==>
      && ItemCount(UpdateLines(items, productId, size, color, quantity)) == ItemCount(items)
      && Total(UpdateLines(items, productId, size, color, quantity)) == Total(items)
    ensures forall i :: IsFirstMatch(items, productId, size, color, i) ==>
      && ItemCount(UpdateLines(items, productId, size, color, quantity))
         == ItemCount(items) - items[i].quantity + quantity
      && Total(UpdateLines(items, productId, size, color, quantity))
         == Total(items) - items[i].product.price * items[i].quantity as real
          + items[i].product.price * quantity as real
  {
    if forall j :: 0 <= j < |items| ==> !SameKey(items[j], productId, size, color) {
      UpdateNoMatch(items, productId, size, color, quantity);
    }
    forall i | IsFirstMatch(items, productId, size, color, i)
      ensures ItemCount(UpdateLines(items, productId, size, color, quantity))
         == ItemCount(items) - items[i].quantity + quantity
      ensures Total(UpdateLines(items, productId, size, color, quantity))
         == Total(items) - items[i].product.price * items[i].quantity as real
          + items[i].product.price * quantity as real
    {
      UpdateOneLineCounts(items, productId, size, color, quantity, i);
    }
  }

  lemma UpdateOneLineCounts(items: seq<CartItem>, productId: string, size: string, color: string, quantity: int, i: int)
    requires quantity > 0 && KeysUnique(items)
    requires IsFirstMatch(items, productId, size, color, i)
    ensures ItemCount(UpdateLines(items, productId, size, color, quantity))
         == ItemCount(items) - items[i].quantity + quantity
    ensures Total(UpdateLines(items, productId, size, color, quantity))
         == Total(items) - items[i].product.price * items[i].quantity as real
          + items[i].product.price * quantity as real
  {
    var v := items[i].(quantity := quantity);
    UpdateOneLine(items, productId, size, color, quantity, i);
    CountsReplace(items, i, v);
  }

  /** With unique identities, the line at `i` is the only one the `map` changes. */
  lemma UpdateOneLine(items: seq<CartItem>, productId: string, size: string, color: string, quantity: int, i: int)
    requires quantity > 0 && KeysUnique(items)
    requires IsFirstMatch(items, productId, size, color, i)
    ensures UpdateLines(items, productId, size, color, quantity) == items[i := items[i].(quantity := quantity)]
  {
    forall k | i < k < |items|
      ensures !SameKey(items[k], productId, size, color)
    {
      assert !SameLine(items[i], items[k]);
    }
  }

  lemma AddLineKeepsKeysUnique(items: seq<CartItem>, product: Product, quantity: int, size: string, color: string)
    requires KeysUnique(items)
    ensures KeysUnique(AddLine(items, product, quantity, size, color))
  {
  }

  lemma {:induction false} FilterKeepsKeysUnique(items: seq<CartItem>, p: CartItem -> bool)
    requires KeysUnique(items)
    ensures KeysUnique(Filter(items, p))
  {
    if items != [] {
      var rest := Filter(items[1..], p);
      FilterKeepsKeysUnique(items[1..], p);
      assert forall k :: 0 <= k < |rest| ==> !SameLine(items[0], rest[k]) by {
        forall k | 0 <= k < |rest|
          ensures !SameLine(items[0], rest[k])
        {
          var j :| 0 <= j < |items[1..]| && items[1..][j] == rest[k];
          assert items[j + 1] == rest[k];
        }
      }
    }
  }

  lemma UpdateLinesKeepsKeysUnique(items: seq<CartItem>, productId: string, size: string, color: string, quantity: int)
    requires KeysUnique(items)
    ensures KeysUnique(UpdateLines(items, productId, size, color, quantity))
  {
    if quantity <= 0 {
      FilterKeepsKeysUnique(items, NotLine(productId, size, color));
    }
  }

  /** The user actions that change the cart. */
  datatype CartAction =
    | Add(product: Product, quantity: int, size: string, color: string)
    | Remove(productId: string, size: string, color: string)
    | Update(productId: string, size: string, color: string, quantity: int)
    | Clear

  function Step(items: seq<CartItem>, action: CartAction): seq<CartItem>
  {
    match action
    case Add(product, quantity, size, color) => AddLine(items, product, quantity, size, color)
    case Remove(productId, size, color) => RemoveLines(items, productId, size, color)
    case Update(productId, size, color, quantity) => UpdateLines(items, productId, size, color, quantity)
    case Clear => []
  }

  function Replay(items: seq<CartItem>, actions: seq<CartAction>): seq<CartItem>
    decreases |actions|
  {
    if actions == [] then items else Replay(Step(items, actions[0]), actions[1..])
  }

  /** Whatever the user does, a cart that starts with unique identities keeps them;
      in particular a cart that starts empty never holds two lines for one identity. */
  lemma {:induction false} ReplayKeepsKeysUnique(items: seq<CartItem>, actions: seq<CartAction>)
    requires KeysUnique(items)
    ensures KeysUnique(Replay(items, actions))
    decreases |actions|
  {
    if actions != [] {
      match actions[0] {
        case Add(product, quantity, size, color) =>
          AddLineKeepsKeysUnique(items, product, quantity, size, color);
        case Remove(productId, size, color) =>
          FilterKeepsKeysUnique(items, NotLine(productId, size, color));
        case Update(productId, size, color, quantity) =>
          UpdateLinesKeepsKeysUnique(items, productId, size, color, quantity);
        case Clear =>
      }
      ReplayKeepsKeysUnique(Step(items, actions[0]), actions[1..]);
    }
  }

  lemma ReplayFromEmpty(actions: seq<CartAction>)
    ensures KeysUnique(Replay([], actions))
  {
    ReplayKeepsKeysUnique([], actions);
  }

  /** The cart state behind `CartProvider`. `persisted` stands for the `cart` entry in
      local storage, which the store rewrites after every change. */
  class CartStore {
    var items: seq<CartItem>
    ghost var persisted: seq<CartItem>

    ghost predicate Valid()
      reads this
    {
      persisted == items
    }

    /** Starts from the list read back from storage (`[]` when there is none). */
    constructor (stored: seq<CartItem>)
      ensures Valid() && items == stored
    {
      items := stored;
      persisted := stored;
    }

    method AddToCart(product: Product, quantity: int, size: string, color: string)
      requires Valid()
      modifies this
      ensures Valid()
      ensures items == AddLine(old(items), product, quantity, size, color)
      ensures ItemCount(items) == ItemCount(old(items)) + quantity
      ensures KeysUnique(old(items)) ==> KeysUnique(items)
    {
      AddLineCounts(items, product, quantity, size, color);
      if KeysUnique(items) {
        AddLineKeepsKeysUnique(items, product, quantity, size, color);
      }
      items := AddLine(items, product, quantity, size, color);
      persisted := items;
    }

    method RemoveFromCart(productId: string, size: string, color: string)
      requires Valid()
      modifies this
      ensures Valid()
      ensures items == RemoveLines(old(items), productId, size, color)
      ensures KeysUnique(old(items)) ==> KeysUnique(items)
    {
      if KeysUnique(items) {
        FilterKeepsKeysUnique(items, NotLine(productId, size, color));
      }
      items := RemoveLines(items, productId, size, color);
      persisted := items;
    }

    method UpdateQuantity(productId: string, size: string, color: string, quantity: int)
      requires Valid()
      modifies this
      ensures Valid()
      ensures items == UpdateLines(old(items), productId, size, color, quantity)
      ensures KeysUnique(old(items)) ==> KeysUnique(items)
    {
      if quantity <= 0 {
        RemoveFromCart(productId, size, color);
        return;
      }
      if KeysUnique(items) {
        UpdateLinesKeepsKeysUnique(items, productId, size, color, quantity);
      }
      items := SetQuantity(items, productId, size, color, quantity);
      persisted := items;
    }

    method ClearCart()
      requires Valid()
      modifies this
      ensures Valid()
      ensures items == [] && ItemCount(items) == 0 && Total(items) == 0.0
    {
      items := [];
      persisted := items;
    }
  }
}
