/**
 * The shopping-cart slice of frontend/src/store/slices/cartSlice.ts. Each
 * reducer mutates the draft state in place; here the state is a `Cart` object
 * and each reducer a method. The pure functions below say what state each
 * reducer produces. Prices are integer cents.
 */
module CartSlice {
  import opened Wrappers

  /** A stall id; the cart treats a stall id as present only when it is positive. */
  type StallId = n: int | n > 0 witness 1

  datatype CartItem = CartItem(
    menuItemId: int,
    name: string,
    price: int,
    quantity: int,
    specialRequests: Option<string>,
    stallId: StallId,
    stallName: string)

  datatype CartState = CartState(
    items: seq<CartItem>,
    stallId: Option<StallId>,
    stallName: Option<string>,
    total: int,
    itemCount: int)

  const InitialState := CartState([], None, None, 0, 0)

  /** Every line has a non-negative price and a positive quantity. */
  predicate Priced(items: seq<CartItem>)
  {
    forall k :: 0 <= k < |items| ==> items[k].price >= 0 && items[k].quantity > 0
  }

  /** Σ price · quantity over the items (the first reduce of calculateTotals). */
  function Total(items: seq<CartItem>): (t: int)
    ensures Priced(items) ==> t >= 0
  {
    if items == [] then 0 else Total(items[..|items| - 1]) + items[|items| - 1].price * items[|items| - 1].quantity
  }

  /** Σ quantity over the items (the second reduce of calculateTotals). */
  function ItemCount(items: seq<CartItem>): (c: int)
    ensures Priced(items) ==> c >= |items|
  {
    if items == [] then 0 else ItemCount(items[..|items| - 1]) + items[|items| - 1].quantity
  }

  /** calculateTotals */
  function CalculateTotals(items: seq<CartItem>): (r: (int, int))
    ensures items == [] ==> r == (0, 0)
    ensures Priced(items) ==> r.0 >= 0 && r.1 >= |items|
  {
    (Total(items), ItemCount(items))
  }

  /** `items.find(i => i.menu_item_id === id)`: the first entry with that id. */
  function Find(items: seq<CartItem>, id: int): (r: Option<nat>)
    ensures r.Some? ==> r.value < |items| && items[r.value].menuItemId == id
    ensures r.Some? ==> forall k :: 0 <= k < r.value ==> items[k].menuItemId != id
    ensures r.None? ==> forall k :: 0 <= k < |items| ==> items[k].menuItemId != id
  {
    if items == [] then None
    else if items[0].menuItemId == id then Some(0)
    else
      match Find(items[1..], id)
      case None => None
      case Some(k) => Some(k + 1)
  }

  /** `items.filter(i => i.menu_item_id !== id)`: every entry with that id dropped, the rest in order. */
  function Without(items: seq<CartItem>, id: int): (r: seq<CartItem>)
    ensures forall x :: x in r <==> x in items && x.menuItemId != id
    ensures |r| <= |items|
  {
    if items == [] then []
    else
      var rest := Without(items[1..], id);
      assert items == [items[0]] + items[1..];
      if items[0].menuItemId == id then rest else [items[0]] + rest
  }

  /** The items with an entry merged in: its quantity added to the first entry with the same id, or appended. */
  function Merge(items: seq<CartItem>, item: CartItem): seq<CartItem>
  {
    match Find(items, item.menuItemId)
    case Some(i) => items[i := items[i].(quantity := items[i].quantity + item.quantity)]
    case None => items + [item]
  }

  ghost predicate UniqueIds(items: seq<CartItem>)
  {
    forall i, j :: 0 <= i < j < |items| ==> items[i].menuItemId != items[j].menuItemId
  }

  /** A state with recomputed totals and, when the items ran out, no stall. */
  function Settle(items: seq<CartItem>, stallId: Option<StallId>, stallName: Option<string>): (r: CartState)
    ensures r.items == items && (r.total, r.itemCount) == CalculateTotals(items)
    ensures items == [] ==> r.stallId.None? && r.stallName.None?
    ensures items != [] ==> r.stallId == stallId && r.stallName == stallName
  {
    var totals := CalculateTotals(items);
    if items == [] then CartState(items, None, None, totals.0, totals.1)
    else CartState(items, stallId, stallName, totals.0, totals.1)
  }

  /** addToCart */
  function Added(st: CartState, item: CartItem): (r: CartState)
    ensures st.stallId.Some? && st.stallId.value != item.stallId ==> r == st
    ensures st.stallId.None? || st.stallId.value == item.stallId ==>
      && r.stallId == Some(item.stallId)
      && r.stallName == (if st.stallId.None? then Some(item.stallName) else st.stallName)
      && (r.total, r.itemCount) == CalculateTotals(r.items)
      && |r.items| >= |st.items|
  {
    if st.stallId.Some? && st.stallId.value != item.stallId then st
    else
      var totals := CalculateTotals(Merge(st.items, item));
      CartState(
        Merge(st.items, item),
        if st.stallId.None? then Some(item.stallId) else st.stallId,
        if st.stallId.None? then Some(item.stallName) else st.stallName,
        totals.0, totals.1)
  }

  /** removeFromCart */
  function Removed(st: CartState, id: int): (r: CartState)
    ensures forall x :: x in r.items <==> x in st.items && x.menuItemId != id
    ensures (r.total, r.itemCount) == CalculateTotals(r.items)
    ensures r.items == [] ==> r.stallId.None? && r.stallName.None?
    ensures r.items != [] ==> r.stallId == st.stallId && r.stallName == st.stallName
  {
    Settle(Without(st.items, id), st.stallId, st.stallName)
  }

  /** updateQuantity */
  function QuantityUpdated(st: CartState, id: int, quantity: int): (r: CartState)
    ensures Find(st.items, id).None? ==> r == st
    ensures Find(st.items, id).Some? ==>
      && (r.total, r.itemCount) == CalculateTotals(r.items)
      && (r.items == [] ==> r.stallId.None? && r.stallName.None?)
      && (r.items != [] ==> r.stallId == st.stallId && r.stallName == st.stallName)
  {
    match Find(st.items, id)
    case None => st
    case Some(i) =>
      if quantity <= 0 then Settle(Without(st.items, id), st.stallId, st.stallName)
      else Settle(st.items[i := st.items[i].(quantity := quantity)], st.stallId, st.stallName)
  }

  /** updateSpecialRequests */
  function RequestsUpdated(st: CartState, id: int, text: string): (r: CartState)
    ensures r.total == st.total && r.itemCount == st.itemCount
    ensures r.stallId == st.stallId && r.stallName == st.stallName
    ensures |r.items| == |st.items|
  {
    match Find(st.items, id)
    case None => st
    case Some(i) => st.(items := st.items[i := st.items[i].(specialRequests := Some(text))])
  }

  /**
   * The cart's own invariant: totals equal the sums over the items, ids are
   * unique, every item is from the cart's stall, and there is a stall exactly
   * when there are items.
   */
  ghost predicate Coherent(st: CartState)
  {
    && st.total == Total(st.items)
    && st.itemCount == ItemCount(st.items)
    && UniqueIds(st.items)
    && (st.items == [] <==> st.stallId.None?)
    && (st.stallId.None? <==> st.stallName.None?)
    && forall k :: 0 <= k < |st.items| ==> Some(st.items[k].stallId) == st.stallId
  }

  // ---------------------------------------------------------------------------
  // Lemmas about the sums
  // ---------------------------------------------------------------------------

  lemma {:induction false} SumsOfAppend(items: seq<CartItem>, x: CartItem)
    ensures Total(items + [x]) == Total(items) + x.price * x.quantity
    ensures ItemCount(items + [x]) == ItemCount(items) + x.quantity
  {
    assert (items + [x])[..|items|] == items;
  }

  /** Replacing one entry changes the sums by exactly the difference of that entry. */
  lemma {:induction false} SumsOfReplace(items: seq<CartItem>, i: nat, x: CartItem)
    requires i < |items|
    ensures Total(items[i := x]) == Total(items) - items[i].price * items[i].quantity + x.price * x.quantity
    ensures ItemCount(items[i := x]) == ItemCount(items) - items[i].quantity + x.quantity
  {
    var n := |items| - 1;
    assert items[i := x][..n] == if i == n then items[..n] else items[..n][i := x];
    if i < n {
      SumsOfReplace(items[..n], i, x);
    }
  }

  lemma {:induction false} SumsOfCons(x: CartItem, items: seq<CartItem>)
    ensures Total([x] + items) == x.price * x.quantity + Total(items)
    ensures ItemCount([x] + items) == x.quantity + ItemCount(items)
  {
    if items != [] {
      var n := |items| - 1;
      assert ([x] + items)[..n + 1] == [x] + items[..n];
      SumsOfCons(x, items[..n]);
    }
  }

  /** The total quantity held by entries with the given id. */
  function QuantityOf(items: seq<CartItem>, id: int): int
  {
    if items == [] then 0
    else (if items[0].menuItemId == id then items[0].quantity else 0) + QuantityOf(items[1..], id)
  }

  /** Dropping an id removes exactly the quantity those entries held. */
  lemma {:induction false} WithoutCount(items: seq<CartItem>, id: int)
    ensures ItemCount(Without(items, id)) == ItemCount(items) - QuantityOf(items, id)
  {
    if items != [] {
      assert items == [items[0]] + items[1..];
      WithoutCount(items[1..], id);
      SumsOfCons(items[0], items[1..]);
      if items[0].menuItemId != id {
        SumsOfCons(items[0], Without(items[1..], id));
      }
    }
  }

  /** On one entry the filter keeps it exactly when its id differs. */
  lemma WithoutOne(x: CartItem, id: int)
    ensures Without([x], id) == if x.menuItemId != id then [x] else []
  {
    assert [x][1..] == [];
  }

  /** The filter distributes over concatenation, so the kept entries stay in their order. */
  lemma {:induction false} WithoutConcat(a: seq<CartItem>, b: seq<CartItem>, id: int)
    ensures Without(a + b, id) == Without(a, id) + Without(b, id)
  {
    if a == [] {
      assert a + b == b;
    } else {
      assert (a + b)[1..] == a[1..] + b;
      WithoutConcat(a[1..], b, id);
    }
  }

  /** The filter keeps each entry with another id as often as the cart holds it, and none with the id. */
  lemma {:induction false} WithoutCounts(items: seq<CartItem>, id: int)
    ensures forall x :: multiset(Without(items, id))[x] == if x.menuItemId != id then multiset(items)[x] else 0
  {
    if items != [] {
      assert items == [items[0]] + items[1..];
      WithoutCounts(items[1..], id);
    }
  }

  lemma {:induction false} WithoutKeepsUnique(items: seq<CartItem>, id: int)
    requires UniqueIds(items)
    ensures UniqueIds(Without(items, id))
  {
    if items != [] {
      assert UniqueIds(items[1..]) by {
        forall i, j | 0 <= i < j < |items[1..]| ensures items[1..][i].menuItemId != items[1..][j].menuItemId {
          assert items[1..][i] == items[i + 1] && items[1..][j] == items[j + 1];
        }
      }
      WithoutKeepsUnique(items[1..], id);
      var rest := Without(items[1..], id);
      if items[0].menuItemId != id {
        forall x | x in rest ensures x.menuItemId != items[0].menuItemId {
          var k :| 0 <= k < |items[1..]| && items[1..][k] == x;
          assert items[k + 1] == x;
        }
        var s := [items[0]] + rest;
        forall i, j | 0 <= i < j < |s| ensures s[i].menuItemId != s[j].menuItemId {
          assert s[j] == rest[j - 1];
          if i > 0 {
            assert s[i] == rest[i - 1];
          }
        }
      }
    }
  }

  // ---------------------------------------------------------------------------
  // What each reducer does
  // ---------------------------------------------------------------------------

  /** Adding an item from another stall than the cart's leaves the whole state unchanged. */
  lemma AddFromOtherStallIgnored(st: CartState, item: CartItem)
    requires st.stallId.Some? && st.stallId.value != item.stallId
    ensures Added(st, item) == st
  {
  }

  /**
   * A merge keeps the list length when the id is present and appends at the
   * end otherwise; either way the count grows by the added quantity and the
   * total by that quantity at the price of the entry that holds it.
   */
  lemma MergeEffect(items: seq<CartItem>, item: CartItem)
    ensures var m := Merge(items, item); var f := Find(items, item.menuItemId);
      && |m| == (if f.Some? then |items| else |items| + 1)
      && (f.None? ==> m == items + [item])
      && ItemCount(m) == ItemCount(items) + item.quantity
      && Total(m) == Total(items) + (if f.Some? then items[f.value].price else item.price) * item.quantity
  {
    match Find(items, item.menuItemId)
    case None =>
      assert Merge(items, item) == items + [item];
      SumsOfAppend(items, item);
    case Some(i) =>
      assert Merge(items, item) == items[i := items[i].(quantity := items[i].quantity + item.quantity)];
      MergeIntoEntry(items, i, item);
  }

  lemma MergeIntoEntry(items: seq<CartItem>, i: nat, item: CartItem)
    requires i < |items|
    ensures var x := items[i].(quantity := items[i].quantity + item.quantity);
      && ItemCount(items[i := x]) == ItemCount(items) + item.quantity
      && Total(items[i := x]) == Total(items) + items[i].price * item.quantity
  {
    var x := items[i].(quantity := items[i].quantity + item.quantity);
    SumsOfReplace(items, i, x);
    Distribute(items[i].price, items[i].quantity, item.quantity);
  }

  lemma Distribute(p: int, a: int, b: int)
    ensures p * (a + b) == p * a + p * b
  {
  }

  /**
   * On a present id the merge rewrites that one entry, raising its quantity
   * by the added quantity, and leaves every other entry as it was.
   */
  lemma MergeEntries(items: seq<CartItem>, item: CartItem)
    requires Find(items, item.menuItemId).Some?
    ensures var m := Merge(items, item); var i := Find(items, item.menuItemId).value;
      && |m| == |items|
      && m[i] == items[i].(quantity := items[i].quantity + item.quantity)
      && forall k :: 0 <= k < |items| && k != i ==> m[k] == items[k]
  {
  }

  /** Merging never creates a second entry for an id. */
  lemma MergeKeepsUnique(items: seq<CartItem>, item: CartItem)
    requires UniqueIds(items)
    ensures UniqueIds(Merge(items, item))
  {
    var m := Merge(items, item);
    if Find(items, item.menuItemId).None? {
      forall i, j | 0 <= i < j < |m| ensures m[i].menuItemId != m[j].menuItemId {
        if j == |items| {
          assert m[i] == items[i];
        } else {
          assert m[i] == items[i] && m[j] == items[j];
        }
      }
    }
  }

  /** After an accepted add the totals are the sums over the new items. */
  lemma AddedTotals(st: CartState, item: CartItem)
    requires st.stallId.None? || st.stallId.value == item.stallId
    ensures var next := Added(st, item);
      && next.items == Merge(st.items, item)
      && next.total == Total(next.items) && next.itemCount == ItemCount(next.items)
      && next.itemCount == ItemCount(st.items) + item.quantity
      && next.stallId == Some(item.stallId)
      && next.stallName == (if st.stallId.None? then Some(item.stallName) else st.stallName)
  {
    MergeEffect(st.items, item);
  }

  lemma AddedKeepsCoherent(st: CartState, item: CartItem)
    requires Coherent(st)
    ensures Coherent(Added(st, item))
  {
    if st.stallId.None? || st.stallId.value == item.stallId {
      MergeKeepsUnique(st.items, item);
      MergeEffect(st.items, item);
      var m := Merge(st.items, item);
      match Find(st.items, item.menuItemId)
      case None =>
        assert forall k :: 0 <= k < |st.items| ==> m[k] == st.items[k];
      case Some(i) =>
        assert forall k :: 0 <= k < |m| ==> m[k].stallId == st.items[k].stallId;
    }
  }

  /** Removing drops every entry with the id; an emptied cart loses its stall. */
  lemma RemovedEffect(st: CartState, id: int)
    ensures var next := Removed(st, id);
      && (forall x :: x in next.items <==> x in st.items && x.menuItemId != id)
      && next.total == Total(next.items)
      && next.itemCount == ItemCount(st.items) - QuantityOf(st.items, id)
      && (next.items == [] ==> next.stallId.None? && next.stallName.None?)
      && (next.items != [] ==> next.stallId == st.stallId && next.stallName == st.stallName)
  {
    WithoutCount(st.items, id);
  }

  lemma RemovedKeepsCoherent(st: CartState, id: int)
    requires Coherent(st)
    ensures Coherent(Removed(st, id))
  {
    var w := Without(st.items, id);
    WithoutKeepsUnique(st.items, id);
    forall k | 0 <= k < |w| ensures Some(w[k].stallId) == st.stallId {
      assert w[k] in st.items;
    }
  }

  /** A quantity of zero or less on a present id is exactly a removal. */
  lemma NonPositiveQuantityRemoves(st: CartState, id: int, quantity: int)
    requires Find(st.items, id).Some? && quantity <= 0
    ensures QuantityUpdated(st, id, quantity) == Removed(st, id)
  {
  }

  /** A positive quantity on a present id sets that entry's quantity exactly. */
  lemma PositiveQuantitySets(st: CartState, id: int, quantity: int)
    requires Find(st.items, id).Some? && quantity > 0
    ensures var i := Find(st.items, id).value; var next := QuantityUpdated(st, id, quantity);
      && |next.items| == |st.items|
      && next.items[i].quantity == quantity
      && next.items[i] == st.items[i].(quantity := quantity)
      && (forall k :: 0 <= k < |st.items| && k != i ==> next.items[k] == st.items[k])
      && next.itemCount == ItemCount(st.items) - st.items[i].quantity + quantity
      && next.total == Total(next.items)
  {
    var i := Find(st.items, id).value;
    SumsOfReplace(st.items, i, st.items[i].(quantity := quantity));
  }

  lemma QuantityUpdatedKeepsCoherent(st: CartState, id: int, quantity: int)
    requires Coherent(st)
    ensures Coherent(QuantityUpdated(st, id, quantity))
  {
    match Find(st.items, id)
    case None =>
    case Some(i) =>
      if quantity <= 0 {
        RemovedKeepsCoherent(st, id);
      } else {
        var items := st.items[i := st.items[i].(quantity := quantity)];
        assert forall k :: 0 <= k < |items| ==> items[k].menuItemId == st.items[k].menuItemId;
        assert forall k :: 0 <= k < |items| ==> items[k].stallId == st.items[k].stallId;
      }
  }

  /** Only the matching entry's special requests change; totals, quantities and the stall stay. */
  lemma RequestsUpdatedEffect(st: CartState, id: int, text: string)
    ensures var next := RequestsUpdated(st, id, text);
      && next.total == st.total && next.itemCount == st.itemCount
      && next.stallId == st.stallId && next.stallName == st.stallName
      && |next.items| == |st.items|
      && Total(next.items) == Total(st.items) && ItemCount(next.items) == ItemCount(st.items)
      && (forall k :: 0 <= k < |st.items| ==> next.items[k].quantity == st.items[k].quantity)
      && (Find(st.items, id).Some? ==> next.items[Find(st.items, id).value].specialRequests == Some(text))
      && (Find(st.items, id).Some? ==>
            next.items[Find(st.items, id).value] == st.items[Find(st.items, id).value].(specialRequests := Some(text)))
      && (forall k :: 0 <= k < |st.items| && Find(st.items, id) != Some(k) ==> next.items[k] == st.items[k])
      && (Find(st.items, id).None? ==> next == st)
  {
    match Find(st.items, id)
    case None =>
    case Some(i) =>
      SumsOfReplace(st.items, i, st.items[i].(specialRequests := Some(text)));
  }

  lemma RequestsUpdatedKeepsCoherent(st: CartState, id: int, text: string)
    requires Coherent(st)
    ensures Coherent(RequestsUpdated(st, id, text))
  {
    RequestsUpdatedEffect(st, id, text);
    var next := RequestsUpdated(st, id, text);
    assert forall k :: 0 <= k < |next.items| ==>
      next.items[k].menuItemId == st.items[k].menuItemId && next.items[k].stallId == st.items[k].stallId;
  }

  /** The initial (and cleared) cart is coherent. A stored state need not be coherent; the reducers preserve coherence but do not restore it. */
  lemma InitialStateCoherent()
    ensures Coherent(InitialState)
  {
  }

  // ---------------------------------------------------------------------------
  // The slice state and its reducers
  // ---------------------------------------------------------------------------

  class Cart {
    var items: seq<CartItem>
    var stallId: Option<StallId>
    var stallName: Option<string>
    var total: int
    var itemCount: int

    function State(): CartState
      reads this
    {
      CartState(items, stallId, stallName, total, itemCount)
    }

    constructor ()
      ensures State() == InitialState
    {
      items, stallId, stallName, total, itemCount := [], None, None, 0, 0;
    }

    method AddToCart(item: CartItem)
      modifies this
      ensures State() == Added(old(State()), item)
    {
      if stallId.Some? && stallId.value != item.stallId {
        return;
      }
      if stallId.None? {
        stallId := Some(item.stallId);
        stallName := Some(item.stallName);
      }
      var existing := Find(items, item.menuItemId);
      ghost var merged := Merge(items, item);
      if existing.Some? {
        var i := existing.value;
        items := items[i := items[i].(quantity := items[i].quantity + item.quantity)];
      } else {
        items := items + [item];
      }
      assert items == merged;
      var totals := CalculateTotals(items);
      total := totals.0;
      itemCount := totals.1;
    }

    method RemoveFromCart(id: int)
      modifies this
      ensures State() == Removed(old(State()), id)
    {
      items := Without(items, id);
      if |items| == 0 {
        stallId := None;
        stallName := None;
      }
      var totals := CalculateTotals(items);
      total := totals.0;
      itemCount := totals.1;
    }

    method UpdateQuantity(id: int, quantity: int)
      modifies this
      ensures State() == QuantityUpdated(old(State()), id, quantity)
    {
      var found := Find(items, id);
      if found.Some? {
        var i := found.value;
        if quantity <= 0 {
          items := Without(items, id);
        } else {
          items := items[i := items[i].(quantity := quantity)];
        }
        if |items| == 0 {
          stallId := None;
          stallName := None;
        }
        var totals := CalculateTotals(items);
        total := totals.0;
        itemCount := totals.1;
      }
    }

    method UpdateSpecialRequests(id: int, text: string)
      modifies this
      ensures State() == RequestsUpdated(old(State()), id, text)
    {
      var found := Find(items, id);
      if found.Some? {
        var i := found.value;
        items := items[i := items[i].(specialRequests := Some(text))];
      }
    }

    method ClearCart()
      modifies this
      ensures State() == InitialState
    {
      items := [];
      stallId := None;
      stallName := None;
      total := 0;
      itemCount := 0;
    }

    /** The stored state replaces the current one wholesale, unchecked. */
    method LoadCartFromStorage(saved: CartState)
      modifies this
      ensures State() == saved
    {
      items, stallId, stallName, total, itemCount := saved.items, saved.stallId, saved.stallName, saved.total, saved.itemCount;
    }
  }
}
