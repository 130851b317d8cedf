/**
 * The order service's checkouts: creating a checkout with its items, reading
 * a pending checkout back (only its creator may), and choosing its payment
 * method. The checkout table is a map from id to the stored `Checkout`
 * entities, the checkout item table a sequence of rows, and `saved` records
 * every checkout passed to the checkout repository's `save`, in order.
 */
module Checkouts {
  import opened Common

  datatype CheckoutState = PENDING | OtherState(name: string)

  datatype PaymentMethod = COD | BANKING | PAYPAL

  /** `name()` of the payment method enum. */
  function MethodName(m: PaymentMethod): string {
    match m
    case COD => "COD"
    case BANKING => "BANKING"
    case PAYPAL => "PAYPAL"
  }

  /** `PaymentMethod.valueOf`: the constant with that exact name, if there is one. */
  function ParseMethod(name: string): (r: Option<PaymentMethod>)
    ensures r.Some? ==> MethodName(r.value) == name
    ensures r.None? ==> forall m: PaymentMethod :: MethodName(m) != name
  {
    if name == "COD" then Some(COD)
    else if name == "BANKING" then Some(BANKING)
    else if name == "PAYPAL" then Some(PAYPAL)
    else None
  }

  /** Every constant parses back from its own name. */
  lemma ParseMethodName(m: PaymentMethod)
    ensures ParseMethod(MethodName(m)) == Some(m)
  {
    match m
    case COD =>
    case BANKING =>
    case PAYPAL =>
  }

  datatype CheckoutError =
    | NotFound(id: string)          // `NotFoundException`
    | Forbidden                     // `Forbidden`: the caller did not create the checkout
    | IllegalArgument(name: string) // `valueOf` refused the payment method name

  datatype CheckoutItemPostVm = CheckoutItemPostVm(
    productId: int, productName: string, quantity: int, productPrice: int,
    discountAmount: int, taxAmount: int, taxPercent: int, note: string)

  datatype CheckoutPostVm = CheckoutPostVm(
    email: string, note: string, couponCode: string, checkoutItemPostVms: seq<CheckoutItemPostVm>)

  /** A row of the checkout item table; the mapper answers items with the same fields. */
  datatype CheckoutItem = CheckoutItem(
    id: int, productId: int, productName: string, quantity: int, productPrice: int,
    discountAmount: int, taxAmount: int, taxPercent: int, note: string, checkoutId: string)

  /** A checkout as the service answers it; `checkoutItemVms` is `None` where the answer holds `null`. */
  datatype CheckoutVm = CheckoutVm(
    id: string, email: string, note: string, couponCode: string,
    checkoutItemVms: Option<seq<CheckoutItem>>)

  /** The fields of a stored checkout, as one value. */
  datatype CheckoutRow = CheckoutRow(
    id: string, email: string, note: string, couponCode: string,
    checkoutState: CheckoutState, createdBy: string, paymentMethodId: Option<PaymentMethod>)

  /** The stored checkout entity. */
  class Checkout {
    var id: string
    var email: string
    var note: string
    var couponCode: string
    var checkoutState: CheckoutState
    var createdBy: string
    var paymentMethodId: Option<PaymentMethod>

    /** A pending checkout built from the request, not yet saved. */
    constructor FromPostVm(vm: CheckoutPostVm)
      ensures Row() == CheckoutRow("", vm.email, vm.note, vm.couponCode, PENDING, "", None)
    {
      id := "";
      email := vm.email;
      note := vm.note;
      couponCode := vm.couponCode;
      checkoutState := PENDING;
      createdBy := "";
      paymentMethodId := None;
    }

    function Row(): (r: CheckoutRow)
      reads this
      ensures r.id == id && r.paymentMethodId == paymentMethodId && r.createdBy == createdBy
      ensures r.checkoutState == checkoutState
      ensures r.email == email && r.note == note && r.couponCode == couponCode
    {
      CheckoutRow(id, email, note, couponCode, checkoutState, createdBy, paymentMethodId)
    }
  }

  /** The item rows saved for the posted items of checkout `checkoutId`; the table gives them ids from `firstId` on. */
  function NewItems(posts: seq<CheckoutItemPostVm>, checkoutId: string, firstId: int): (r: seq<CheckoutItem>)
    ensures |r| == |posts|
    ensures forall i :: 0 <= i < |r| ==>
      && r[i].checkoutId == checkoutId && r[i].id == firstId + i
      && r[i].productId == posts[i].productId && r[i].productName == posts[i].productName
      && r[i].quantity == posts[i].quantity && r[i].productPrice == posts[i].productPrice
      && r[i].discountAmount == posts[i].discountAmount && r[i].taxAmount == posts[i].taxAmount
      && r[i].taxPercent == posts[i].taxPercent && r[i].note == posts[i].note
  {
    if posts == [] then []
    else
      var p := posts[0];
      [CheckoutItem(firstId, p.productId, p.productName, p.quantity, p.productPrice,
                    p.discountAmount, p.taxAmount, p.taxPercent, p.note, checkoutId)]
      + NewItems(posts[1..], checkoutId, firstId + 1)
  }

  /** `findAllByCheckoutId`: the rows of that checkout, in table order. */
  function ItemsOf(items: seq<CheckoutItem>, checkoutId: string): (r: seq<CheckoutItem>)
    ensures |r| <= |items|
    ensures forall x :: x in r <==> x in items && x.checkoutId == checkoutId
    ensures forall i :: 0 <= i < |r| ==> r[i].checkoutId == checkoutId
  {
    if items == [] then []
    else if items[|items| - 1].checkoutId == checkoutId
    then ItemsOf(items[..|items| - 1], checkoutId) + [items[|items| - 1]]
    else ItemsOf(items[..|items| - 1], checkoutId)
  }

  /** Rows appended for another checkout do not change the rows found for this one. */
  lemma {:induction false} ItemsOfAppend(items: seq<CheckoutItem>, extra: seq<CheckoutItem>, checkoutId: string)
    ensures ItemsOf(items + extra, checkoutId) == ItemsOf(items, checkoutId) + ItemsOf(extra, checkoutId)
    decreases |extra|
  {
    if extra == [] {
      assert items + extra == items;
    } else {
      var last := extra[|extra| - 1];
      var init := extra[..|extra| - 1];
      assert (items + extra)[..|items + extra| - 1] == items + init;
      ItemsOfAppend(items, init, checkoutId);
    }
  }

  /** The items saved with a new checkout are exactly the rows found for it afterwards, when it had none before. */
  lemma NewItemsFoundAgain(items: seq<CheckoutItem>, posts: seq<CheckoutItemPostVm>, checkoutId: string, firstId: int)
    requires ItemsOf(items, checkoutId) == []
    ensures ItemsOf(items + NewItems(posts, checkoutId, firstId), checkoutId) == NewItems(posts, checkoutId, firstId)
  {
    var added := NewItems(posts, checkoutId, firstId);
    ItemsOfAppend(items, added, checkoutId);
    AllTagged(added, checkoutId);
  }

  /** Filtering rows that all carry the checkout id keeps them all. */
  lemma {:induction false} AllTagged(rows: seq<CheckoutItem>, checkoutId: string)
    requires forall i :: 0 <= i < |rows| ==> rows[i].checkoutId == checkoutId
    ensures ItemsOf(rows, checkoutId) == rows
  {
    if rows != [] {
      AllTagged(rows[..|rows| - 1], checkoutId);
      assert rows[..|rows| - 1] + [rows[|rows| - 1]] == rows;
    }
  }

  class CheckoutService {
    var checkouts: map<string, Checkout>
    var items: seq<CheckoutItem>
    var nextItemId: int
    var saved: seq<Checkout>

    /** Each checkout is stored under its own id, and no entity is stored twice. */
    ghost predicate Valid()
      reads this, checkouts.Values
    {
      && (forall k :: k in checkouts ==> checkouts[k].id == k)
      && (forall a, b :: a in checkouts && b in checkouts && a != b ==> checkouts[a] != checkouts[b])
    }

    constructor ()
      ensures Valid() && checkouts == map[] && items == [] && saved == []
    {
      checkouts := map[];
      items := [];
      nextItemId := 1;
      saved := [];
    }

    /**
     * `createCheckout`: save a pending checkout under the fresh id `newId`,
     * created by the current user, then its items, and answer both; the item
     * list is present even when it is empty.
     */
    method CreateCheckout(vm: CheckoutPostVm, newId: string, currentUser: string) returns (res: CheckoutVm)
      requires Valid() && newId !in checkouts
      modifies this
      ensures Valid()
      ensures newId in checkouts && fresh(checkouts[newId])
      ensures checkouts == old(checkouts)[newId := checkouts[newId]]
      ensures checkouts[newId].Row() == CheckoutRow(newId, vm.email, vm.note, vm.couponCode, PENDING, currentUser, None)
      ensures saved == old(saved) + [checkouts[newId]]
      ensures items == old(items) + NewItems(vm.checkoutItemPostVms, newId, old(nextItemId))
      ensures nextItemId == old(nextItemId) + |vm.checkoutItemPostVms|
      ensures res == CheckoutVm(newId, vm.email, vm.note, vm.couponCode,
                                Some(NewItems(vm.checkoutItemPostVms, newId, old(nextItemId))))
    {
      var checkout := new Checkout.FromPostVm(vm);
      checkout.id := newId;
      checkout.createdBy := currentUser;
      checkouts := checkouts[newId := checkout];
      saved := saved + [checkout];
      var rows := NewItems(vm.checkoutItemPostVms, newId, nextItemId);
      items := items + rows;
      nextItemId := nextItemId + |rows|;
      res := CheckoutVm(checkout.id, checkout.email, checkout.note, checkout.couponCode, Some(rows));
    }

    /**
     * `getCheckoutPendingStateWithItemsById`: the pending checkout with that id,
     * for its creator only, with its items, or no item list when it has none.
     */
    method GetCheckoutPendingStateWithItemsById(id: string, currentUser: string) returns (r: Result<CheckoutVm, CheckoutError>)
      requires Valid()
      ensures r == Err(NotFound(id)) <==> id !in checkouts || checkouts[id].checkoutState != PENDING
      ensures r == Err(Forbidden) <==>
        id in checkouts && checkouts[id].checkoutState == PENDING && checkouts[id].createdBy != currentUser
      ensures r.Ok? <==>
        id in checkouts && checkouts[id].checkoutState == PENDING && checkouts[id].createdBy == currentUser
      ensures r.Ok? ==>
        && id in checkouts
        && r.value.id == id && r.value.email == checkouts[id].email
        && r.value.note == checkouts[id].note && r.value.couponCode == checkouts[id].couponCode
        && (r.value.checkoutItemVms.None? <==> ItemsOf(items, id) == [])
        && (r.value.checkoutItemVms.Some? ==> r.value.checkoutItemVms.value == ItemsOf(items, id))
    {
      if id !in checkouts || checkouts[id].checkoutState != PENDING {
        return Err(NotFound(id));
      }
      var checkout := checkouts[id];
      if checkout.createdBy != currentUser {
        return Err(Forbidden);
      }
      var rows := ItemsOf(items, id);
      var itemVms := if rows == [] then None else Some(rows);
      r := Ok(CheckoutVm(checkout.id, checkout.email, checkout.note, checkout.couponCode, itemVms));
    }

    /**
     * `updateCheckoutPaymentMethod`: look the checkout up, then do nothing for
     * no method, or set the named method and save the checkout.
     */
    method UpdateCheckoutPaymentMethod(id: string, paymentMethodId: Option<string>) returns (r: Result<(), CheckoutError>)
      requires Valid()
      modifies this, if id in checkouts then {checkouts[id]} else {}
      ensures Valid()
      ensures checkouts == old(checkouts) && items == old(items) && nextItemId == old(nextItemId)
      ensures id !in checkouts ==> r == Err(NotFound(id)) && saved == old(saved)
      ensures id in checkouts && paymentMethodId.None? ==>
        r == Ok(()) && unchanged(checkouts[id]) && saved == old(saved)
      ensures id in checkouts && paymentMethodId.Some? && ParseMethod(paymentMethodId.value).None? ==>
        r == Err(IllegalArgument(paymentMethodId.value)) && unchanged(checkouts[id]) && saved == old(saved)
      ensures id in checkouts && paymentMethodId.Some? && ParseMethod(paymentMethodId.value).Some? ==>
        && r == Ok(())
        && checkouts[id].Row() == old(checkouts[id].Row()).(paymentMethodId := ParseMethod(paymentMethodId.value))
        && MethodName(checkouts[id].paymentMethodId.value) == paymentMethodId.value
        && saved == old(saved) + [checkouts[id]]
      ensures forall k :: k in checkouts && k != id ==> unchanged(checkouts[k])
    {
      if id !in checkouts {
        return Err(NotFound(id));
      }
      var checkout := checkouts[id];
      if paymentMethodId.None? {
        return Ok(());
      }
      var parsed := ParseMethod(paymentMethodId.value);
      if parsed.None? {
        return Err(IllegalArgument(paymentMethodId.value));
      }
      checkout.paymentMethodId := parsed;
      saved := saved + [checkout];
      r := Ok(());
    }
  }

  /** A checkout just created is read back by its creator with the items it was created with, while it is pending. */
  method CreateThenRead(service: CheckoutService, vm: CheckoutPostVm, newId: string, user: string)
      returns (created: CheckoutVm, read: Result<CheckoutVm, CheckoutError>)
    requires service.Valid() && newId !in service.checkouts
    requires ItemsOf(service.items, newId) == [] && vm.checkoutItemPostVms != []
    modifies service
    ensures read == Ok(created)
  {
    ghost var before := service.items;
    ghost var firstId := service.nextItemId;
    created := service.CreateCheckout(vm, newId, user);
    ghost var rows := NewItems(vm.checkoutItemPostVms, newId, firstId);
    NewItemsFoundAgain(before, vm.checkoutItemPostVms, newId, firstId);
    assert ItemsOf(service.items, newId) == rows != [];
    ghost var c := service.checkouts[newId];
    assert c.checkoutState == PENDING && c.createdBy == user && c.id == newId;
    read := service.GetCheckoutPendingStateWithItemsById(newId, user);
    assert read.Ok? && read.value.checkoutItemVms == Some(rows);
  }
}
