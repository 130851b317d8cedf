/**
 * The cart service's item repository: the finders, the two derived deletes and
 * the quantity sum over the cart item table, a sequence of rows in table order.
 */
module CartItems {
  import opened Common

  /** A row of the cart item table; `cartId` is the id of the owning cart. */
  datatype CartItem = CartItem(id: int, cartId: int, productId: int, quantity: int)

  /** The rows of one cart, in table order. */
  function RowsOf(items: seq<CartItem>, cartId: int): (r: seq<CartItem>)
    ensures |r| <= |items|
    ensures forall x :: x in r <==> x in items && x.cartId == cartId
  {
    if items == [] then []
    else
      var rest := RowsOf(items[..|items| - 1], cartId);
      var last := items[|items| - 1];
      assert items == items[..|items| - 1] + [last];
      if last.cartId == cartId then rest + [last] else rest
  }

  /** `findAllByCart`: the set of rows belonging to that cart. */
  function FindAllByCart(items: seq<CartItem>, cartId: int): (r: set<CartItem>)
    ensures forall x :: x in r <==> x in items && x.cartId == cartId
  {
    if items == [] then {}
    else
      var last := items[|items| - 1];
      assert items == items[..|items| - 1] + [last];
      FindAllByCart(items[..|items| - 1], cartId) + (if last.cartId == cartId then {last} else {})
  }

  /** The rows of the cart whose product is listed. */
  function ProductRows(items: seq<CartItem>, cartId: int, productIds: seq<int>): (r: seq<CartItem>)
    ensures forall x :: x in r <==> x in items && x.cartId == cartId && x.productId in productIds
  {
    if items == [] then []
    else
      var rest := ProductRows(items[..|items| - 1], cartId, productIds);
      var last := items[|items| - 1];
      assert items == items[..|items| - 1] + [last];
      if last.cartId == cartId && last.productId in productIds then rest + [last] else rest
  }

  /** Every row except the cart's rows of the listed products, in table order. */
  function OtherRows(items: seq<CartItem>, cartId: int, productIds: seq<int>): (r: seq<CartItem>)
    ensures |r| <= |items|
    ensures forall x :: x in r <==> x in items && !(x.cartId == cartId && x.productId in productIds)
  {
    if items == [] then []
    else
      var rest := OtherRows(items[..|items| - 1], cartId, productIds);
      var last := items[|items| - 1];
      assert items == items[..|items| - 1] + [last];
      if last.cartId == cartId && last.productId in productIds then rest else rest + [last]
  }

  /** `findByCartIdAndProductId`: the row of that cart and product, none, or a failure when there are several. */
  function FindByCartIdAndProductId(items: seq<CartItem>, cartId: int, productId: int): (r: Lookup<CartItem>)
    ensures r.Absent? <==> forall x :: x in items ==> !(x.cartId == cartId && x.productId == productId)
    ensures r.Found? ==>
      && r.value in items && r.value.cartId == cartId && r.value.productId == productId
      && forall x :: x in items && x.cartId == cartId && x.productId == productId ==> x == r.value
  {
    var matches := ProductRows(items, cartId, [productId]);
    if |matches| == 0 then
      assert forall x :: x in items && x.cartId == cartId && x.productId == productId ==> x in matches;
      Absent
    else if |matches| == 1 then
      assert matches[0] in matches;
      assert forall x :: x in matches ==> x == matches[0];
      Found(matches[0])
    else
      assert matches[0] in matches;
      NotUnique
  }

  /** When exactly one row has the cart and product, the finder answers that row. */
  lemma OnlyRowFound(items: seq<CartItem>, cartId: int, productId: int, i: nat)
    requires i < |items| && items[i].cartId == cartId && items[i].productId == productId
    requires forall j :: 0 <= j < |items| && j != i ==> !(items[j].cartId == cartId && items[j].productId == productId)
    ensures FindByCartIdAndProductId(items, cartId, productId) == Found(items[i])
  {
    OnlyRowMatches(items, cartId, productId, i);
  }

  lemma {:induction false} NoRowMatches(items: seq<CartItem>, cartId: int, productId: int)
    requires forall j :: 0 <= j < |items| ==> !(items[j].cartId == cartId && items[j].productId == productId)
    ensures ProductRows(items, cartId, [productId]) == []
  {
    if items != [] {
      NoRowMatches(items[..|items| - 1], cartId, productId);
    }
  }

  lemma {:induction false} OnlyRowMatches(items: seq<CartItem>, cartId: int, productId: int, i: nat)
    requires i < |items| && items[i].cartId == cartId && items[i].productId == productId
    requires forall j :: 0 <= j < |items| && j != i ==> !(items[j].cartId == cartId && items[j].productId == productId)
    ensures ProductRows(items, cartId, [productId]) == [items[i]]
  {
    var init := items[..|items| - 1];
    var last := items[|items| - 1];
    assert items == init + [last];
    if i == |items| - 1 {
      forall j | 0 <= j < |init| ensures !(init[j].cartId == cartId && init[j].productId == productId) {
        assert init[j] == items[j];
      }
      NoRowMatches(init, cartId, productId);
    } else {
      assert !(last.cartId == cartId && last.productId == productId);
      forall j | 0 <= j < |init| && j != i
        ensures !(init[j].cartId == cartId && init[j].productId == productId)
      {
        assert init[j] == items[j];
      }
      assert init[i] == items[i];
      OnlyRowMatches(init, cartId, productId, i);
    }
  }

  /** The sum of the quantities of some rows. */
  function Total(rows: seq<CartItem>): int {
    if rows == [] then 0 else Total(rows[..|rows| - 1]) + rows[|rows| - 1].quantity
  }

  /**
   * `countItemInCart`: SQL `SUM(quantity)` over the cart's rows, which is
   * `null` when the cart has no rows rather than 0.
   */
  function CountItemInCart(items: seq<CartItem>, cartId: int): (r: Option<int>)
    ensures r.None? <==> RowsOf(items, cartId) == []
    ensures r.Some? ==> r.value == Total(RowsOf(items, cartId))
  {
    if items == [] then None
    else
      var last := items[|items| - 1];
      var before := CountItemInCart(items[..|items| - 1], cartId);
      if last.cartId != cartId then before
      else if before.None? then Some(last.quantity)
      else Some(before.value + last.quantity)
  }

  function OrZero(o: Option<int>): int {
    if o.Some? then o.value else 0
  }

  /** Deleting rows of other carts keeps a cart's rows as they were, in the same order. */
  lemma {:induction false} OtherRowsKeepOtherCarts(items: seq<CartItem>, cartId: int, productIds: seq<int>, other: int)
    requires other != cartId
    ensures RowsOf(OtherRows(items, cartId, productIds), other) == RowsOf(items, other)
  {
    if items != [] {
      var init := items[..|items| - 1];
      var last := items[|items| - 1];
      OtherRowsKeepOtherCarts(init, cartId, productIds, other);
      if !(last.cartId == cartId && last.productId in productIds) {
        RowsOfSnoc(OtherRows(init, cartId, productIds), last, other);
      }
    }
  }

  /** `RowsOf` of a sequence with one more row at its end. */
  lemma RowsOfSnoc(items: seq<CartItem>, x: CartItem, cartId: int)
    ensures RowsOf(items + [x], cartId) == RowsOf(items, cartId) + (if x.cartId == cartId then [x] else [])
  {
    assert (items + [x])[..|items + [x]| - 1] == items;
  }

  /** The total of a cart splits into the rows a delete removes and the rows it keeps. */
  lemma {:induction false} TotalSplits(items: seq<CartItem>, cartId: int, productIds: seq<int>)
    ensures Total(RowsOf(OtherRows(items, cartId, productIds), cartId)) + Total(ProductRows(items, cartId, productIds))
            == Total(RowsOf(items, cartId))
  {
    if items != [] {
      var init := items[..|items| - 1];
      var last := items[|items| - 1];
      TotalSplits(init, cartId, productIds);
      var kept := OtherRows(init, cartId, productIds);
      if last.cartId == cartId && last.productId in productIds {
        TotalSnoc(ProductRows(init, cartId, productIds), last);
        TotalSnoc(RowsOf(init, cartId), last);
      } else {
        RowsOfSnoc(kept, last, cartId);
        if last.cartId == cartId {
          TotalSnoc(RowsOf(kept, cartId), last);
          TotalSnoc(RowsOf(init, cartId), last);
        }
      }
    }
  }

  lemma TotalSnoc(rows: seq<CartItem>, x: CartItem)
    ensures Total(rows + [x]) == Total(rows) + x.quantity
  {
    assert (rows + [x])[..|rows + [x]| - 1] == rows;
  }

  /** After a delete the cart's count has dropped by exactly the quantities removed. */
  lemma CountAfterDelete(items: seq<CartItem>, cartId: int, productIds: seq<int>)
    ensures OrZero(CountItemInCart(OtherRows(items, cartId, productIds), cartId))
            + Total(ProductRows(items, cartId, productIds))
            == OrZero(CountItemInCart(items, cartId))
  {
    TotalSplits(items, cartId, productIds);
  }

  /** The cart item table with the two derived deletes, which change it in place. */
  class CartItemTable {
    var items: seq<CartItem>

    constructor (rows: seq<CartItem>)
      ensures items == rows
    {
      items := rows;
    }

    /** `deleteByCartIdAndProductId`: remove every row of that cart and product. */
    method DeleteByCartIdAndProductId(cartId: int, productId: int)
      modifies this
      ensures items == OtherRows(old(items), cartId, [productId])
      ensures forall x :: x in items ==> !(x.cartId == cartId && x.productId == productId)
      ensures forall c :: c != cartId ==> RowsOf(items, c) == RowsOf(old(items), c)
    {
      ghost var before := items;
      items := OtherRows(items, cartId, [productId]);
      forall c | c != cartId
        ensures RowsOf(items, c) == RowsOf(before, c)
      {
        OtherRowsKeepOtherCarts(before, cartId, [productId], c);
      }
    }

    /** `deleteByCartIdAndProductIdIn`: remove the cart's rows of every listed product. */
    method DeleteByCartIdAndProductIdIn(cartId: int, productIds: seq<int>)
      modifies this
      ensures items == OtherRows(old(items), cartId, productIds)
      ensures forall x :: x in items ==> !(x.cartId == cartId && x.productId in productIds)
      ensures forall c :: c != cartId ==> RowsOf(items, c) == RowsOf(old(items), c)
    {
      ghost var before := items;
      items := OtherRows(items, cartId, productIds);
      forall c | c != cartId
        ensures RowsOf(items, c) == RowsOf(before, c)
      {
        OtherRowsKeepOtherCarts(before, cartId, productIds, c);
      }
    }
  }
}
