/**
 * The storefront's cart page: the list of cart lines it shows, the commands its
 * buttons and quantity field send to the cart service, and the remove dialog.
 * The cart service itself is remote; its calls are modelled as the commands
 * issued, and every command is followed by a reload of the cart.
 */
module CartPage {
  import opened Common
  import opened Text

  /** One line of the cart as the cart service returns it. */
  datatype CartDetail = CartDetail(id: int, productId: int, quantity: int)

  datatype Cart = Cart(id: int, customerId: string, cartDetails: seq<CartDetail>)

  /** The fulfilled value of `getCartProductThumbnail` for one product. */
  datatype ProductThumbnail = ProductThumbnail(name: string, slug: string, thumbnailUrl: string)

  /**
   * A JavaScript `number` as a quantity on this page: a whole number, or `NaN`,
   * which `parseInt` gives for a field with no leading digits.
   */
  datatype Quantity = Number(value: int) | NaN

  /** A line as the page shows it; the field's edits write `parseInt` results into it. */
  datatype Item = Item(productId: int, quantity: Quantity, productName: string, slug: string, thumbnailUrl: string)

  /** A request sent to the cart service. */
  datatype CartCommand =
    | AddToCart(productId: int, quantity: Quantity)
    | UpdateCart(productId: int, quantity: Quantity)
    | RemoveProductInCart(productId: int)

  // ----- parseInt on the quantity field's text -----

  /** The longest run of decimal digits at the start of `s`. */
  function DigitPrefix(s: string): (d: string)
    ensures AllDigits(d) && d <= s
    ensures |d| < |s| ==> !IsDigit(s[|d|])
    ensures AllDigits(s) ==> d == s
  {
    if s != [] && IsDigit(s[0]) then [s[0]] + DigitPrefix(s[1..]) else []
  }

  lemma {:induction false} DigitPrefixStops(d: string, c: char, rest: string)
    requires AllDigits(d) && !IsDigit(c)
    ensures DigitPrefix(d + [c] + rest) == d
  {
    var s := d + [c] + rest;
    if d == [] {
      assert s[0] == c;
    } else {
      assert IsDigit(d[0]) && s[0] == d[0];
      assert s[1..] == d[1..] + [c] + rest;
      assert AllDigits(d[1..]) by {
        forall k | 0 <= k < |d[1..]| ensures IsDigit(d[1..][k]) { assert d[1..][k] == d[k + 1]; }
      }
      DigitPrefixStops(d[1..], c, rest);
      assert d == [d[0]] + d[1..];
    }
  }

  /** The text after an optional leading sign. */
  function Unsigned(text: string): string {
    if text != [] && (text[0] == '-' || text[0] == '+') then text[1..] else text
  }

  /**
   * `parseInt(text)` with the default radix: an optional sign, then the longest
   * run of decimal digits; `NaN` when that run is empty.
   */
  function ParseInt(text: string): (q: Quantity)
    ensures text == "" ==> q == NaN
    ensures AllDigits(text) && text != "" ==> q == Number(DigitsValue(text))
  {
    var digits := DigitPrefix(Unsigned(text));
    if digits == [] then NaN
    else if text[0] == '-' then Number(-(DigitsValue(digits) as int))
    else Number(DigitsValue(digits))
  }

  /** `parseInt` gives `NaN` exactly when no digit follows the optional sign. */
  lemma ParseIntNaN(text: string)
    ensures ParseInt(text) == NaN <==> Unsigned(text) == [] || !IsDigit(Unsigned(text)[0])
  {
  }

  /** `parseInt` reads back the decimal text of every whole number. */
  lemma ParseIntOfIntToString(i: int)
    ensures ParseInt(IntToString(i)) == Number(i)
  {
    var digits := NatToString(if i < 0 then -i else i);
    if i < 0 {
      assert Unsigned(IntToString(i)) == digits;
    } else {
      assert digits[0] != '-' && digits[0] != '+' by { assert IsDigit(digits[0]); }
    }
  }

  /** `parseInt` stops at the first character that is no digit, so `1.5` and `2e3` read as 1 and 2. */
  lemma ParseIntStopsAtNonDigit(d: string, c: char, rest: string)
    requires AllDigits(d) && d != "" && !IsDigit(c)
    ensures ParseInt(d + [c] + rest) == Number(DigitsValue(d))
  {
    var text := d + [c] + rest;
    assert text[0] == d[0] && IsDigit(d[0]);
    DigitPrefixStops(d, c, rest);
  }

  /** What pressing a key in the quantity field does. */
  datatype KeyEffect =
    | NoCommand
    | Issue(command: CartCommand)
    | TypeError   // `items.find(...)!` gave `undefined` and reading its quantity throws

  /** `handlePlus`: ask for one more unit of the product. */
  function HandlePlus(productId: int): (c: CartCommand)
    ensures c.AddToCart? && c.productId == productId && c.quantity == Number(1)
  {
    AddToCart(productId, Number(1))
  }

  /** `handleMinus`: one unit fewer, or remove the line when it holds a single unit; `NaN - 1` is `NaN`. */
  function HandleMinus(productId: int, productQuantity: Quantity): (c: CartCommand)
    ensures c == RemoveProductInCart(productId) <==> productQuantity == Number(1)
    ensures productQuantity.Number? && productQuantity.value != 1 ==>
      c == UpdateCart(productId, Number(productQuantity.value - 1))
    ensures productQuantity == NaN ==> c == UpdateCart(productId, NaN)
  {
    match productQuantity
    case NaN => UpdateCart(productId, NaN)
    case Number(n) => if n == 1 then RemoveProductInCart(productId) else UpdateCart(productId, Number(n - 1))
  }

  /** On a line with at least one unit, minus never asks for a quantity of zero, and never for more. */
  lemma MinusNeverSetsZero(productId: int, productQuantity: int)
    requires productQuantity >= 1
    ensures HandleMinus(productId, Number(productQuantity)).UpdateCart? ==>
      && HandleMinus(productId, Number(productQuantity)).quantity.Number?
      && 1 <= HandleMinus(productId, Number(productQuantity)).quantity.value < productQuantity
    ensures HandleMinus(productId, Number(productQuantity)) != UpdateCart(productId, Number(0))
  {
  }

  /**
   * `handleCartQuantityInputOnBlur(productId, parseInt(e.target.value))`: send
   * the quantity read from the field's text; a cleared field sends `NaN`.
   */
  function HandleQuantityBlur(productId: int, fieldText: string): (c: CartCommand)
    ensures c.UpdateCart? && c.productId == productId
    ensures fieldText == "" ==> c.quantity == NaN
    ensures AllDigits(fieldText) && fieldText != "" ==> c.quantity == Number(DigitsValue(fieldText))
  {
    UpdateCart(productId, ParseInt(fieldText))
  }

  /** Leaving the field with the text it was rendered with (`defaultValue={item.quantity}`) sends that quantity. */
  lemma BlurUnchangedField(productId: int, quantity: int)
    ensures HandleQuantityBlur(productId, IntToString(quantity)) == UpdateCart(productId, Number(quantity))
  {
    ParseIntOfIntToString(quantity);
  }

  /** The index `items.find(item => item.productId === productId)` lands on, if any. */
  function FirstIndex(items: seq<Item>, productId: int): (r: Option<nat>)
    ensures r.None? <==> forall j :: 0 <= j < |items| ==> items[j].productId != productId
    ensures r.Some? ==> r.value < |items| && items[r.value].productId == productId
    ensures r.Some? ==> forall j :: 0 <= j < r.value ==> items[j].productId != productId
  {
    if items == [] then None
    else if items[0].productId == productId then Some(0)
    else match FirstIndex(items[1..], productId)
      case None => None
      case Some(i) => Some(i + 1)
  }

  /**
   * The loop of `loadCart` that pairs each cart line with the thumbnail fetched
   * for it: `Promise.allSettled` yields one result per line, in the same order.
   */
  method MergeThumbnails(cartDetails: seq<CartDetail>, results: seq<ProductThumbnail>) returns (newItems: seq<Item>)
    requires |results| == |cartDetails|
    ensures |newItems| == |cartDetails|
    ensures forall i :: 0 <= i < |newItems| ==>
      && newItems[i].productId == cartDetails[i].productId
      && newItems[i].quantity == Number(cartDetails[i].quantity)
      && newItems[i].productName == results[i].name
      && newItems[i].slug == results[i].slug
      && newItems[i].thumbnailUrl == results[i].thumbnailUrl
  {
    newItems := [];
    var i := 0;
    while i < |results|
      invariant 0 <= i <= |results|
      invariant |newItems| == i
      invariant forall k :: 0 <= k < i ==>
        newItems[k] == Item(cartDetails[k].productId, Number(cartDetails[k].quantity),
                            results[k].name, results[k].slug, results[k].thumbnailUrl)
    {
      var product := results[i];
      newItems := newItems + [Item(cartDetails[i].productId, Number(cartDetails[i].quantity),
                                   product.name, product.slug, product.thumbnailUrl)];
      i := i + 1;
    }
  }

  /** The page's state (`useState` hooks). */
  class CartPageState {
    var items: seq<Item>
    var loaded: bool
    var productIdRemove: int
    var isOpenRemoveDialog: bool
    var cart: Cart

    constructor ()
      ensures items == [] && !loaded && productIdRemove == 0 && !isOpenRemoveDialog
      ensures cart == Cart(0, "", [CartDetail(0, 0, 0)])
    {
      items := [];
      loaded := false;
      productIdRemove := 0;
      isOpenRemoveDialog := false;
      cart := Cart(0, "", [CartDetail(0, 0, 0)]);
    }

    /** The mount effect: the first render asks for the cart once. */
    method Mount() returns (requestLoad: bool)
      modifies this
      ensures requestLoad == !old(loaded) && loaded
      ensures items == old(items) && cart == old(cart)
      ensures productIdRemove == old(productIdRemove) && isOpenRemoveDialog == old(isOpenRemoveDialog)
    {
      requestLoad := !loaded;
      if !loaded {
        loaded := true;
      }
    }

    /** `loadCart` once the cart and the thumbnails have arrived. */
    method LoadCart(data: Cart, results: seq<ProductThumbnail>)
      requires |results| == |data.cartDetails|
      modifies this
      ensures cart == data && |items| == |data.cartDetails|
      ensures forall i :: 0 <= i < |items| ==>
        && items[i].productId == data.cartDetails[i].productId
        && items[i].quantity == Number(data.cartDetails[i].quantity)
        && items[i].productName == results[i].name
        && items[i].slug == results[i].slug
        && items[i].thumbnailUrl == results[i].thumbnailUrl
      ensures loaded == old(loaded) && productIdRemove == old(productIdRemove)
      ensures isOpenRemoveDialog == old(isOpenRemoveDialog)
    {
      cart := data;
      var newItems := MergeThumbnails(data.cartDetails, results);
      items := newItems;
    }

    /**
     * `handleQuantityOnChange(productId, parseInt(e.target.value))`: writes the
     * quantity read from the field's text into the first line of that product,
     * in place; `found` is false when there is none and the assignment throws.
     */
    method QuantityOnChange(productId: int, fieldText: string) returns (found: bool)
      modifies this
      ensures found <==> FirstIndex(old(items), productId).Some?
      ensures found ==> items == old(items)[FirstIndex(old(items), productId).value :=
                                              old(items)[FirstIndex(old(items), productId).value].(quantity := ParseInt(fieldText))]
      ensures !found ==> items == old(items)
      ensures cart == old(cart) && loaded == old(loaded)
      ensures productIdRemove == old(productIdRemove) && isOpenRemoveDialog == old(isOpenRemoveDialog)
    {
      var index := FirstIndex(items, productId);
      match index
      case None =>
        found := false;
      case Some(i) =>
        items := items[i := items[i].(quantity := ParseInt(fieldText))];
        found := true;
    }

    /** `handleQuantityKeyDown`: Enter sends the locally edited quantity of the product's first line. */
    method QuantityKeyDown(productId: int, key: string) returns (effect: KeyEffect)
      ensures key != "Enter" ==> effect == NoCommand
      ensures key == "Enter" && FirstIndex(items, productId).None? ==> effect == TypeError
      ensures key == "Enter" && FirstIndex(items, productId).Some? ==>
        effect == Issue(UpdateCart(productId, items[FirstIndex(items, productId).value].quantity))
    {
      if key == "Enter" {
        var index := FirstIndex(items, productId);
        match index
        case None =>
          effect := TypeError;
        case Some(i) =>
          effect := Issue(UpdateCart(productId, items[i].quantity));
      } else {
        effect := NoCommand;
      }
    }

    /** `openRemoveConfirmDialog`: remember the product and open the dialog. */
    method OpenRemoveConfirmDialog(productId: int)
      modifies this
      ensures productIdRemove == productId && isOpenRemoveDialog
      ensures items == old(items) && cart == old(cart) && loaded == old(loaded)
    {
      productIdRemove := productId;
      isOpenRemoveDialog := true;
    }

    /** The dialog's Cancel button. */
    method CancelRemove()
      modifies this
      ensures !isOpenRemoveDialog
      ensures productIdRemove == old(productIdRemove)
      ensures items == old(items) && cart == old(cart) && loaded == old(loaded)
    {
      isOpenRemoveDialog := false;
    }

    /** `removeProduct`: ask for the product to be removed and close the dialog. */
    method RemoveProduct(productId: int) returns (command: CartCommand)
      modifies this
      ensures command == RemoveProductInCart(productId) && !isOpenRemoveDialog
      ensures productIdRemove == old(productIdRemove)
      ensures items == old(items) && cart == old(cart) && loaded == old(loaded)
    {
      command := RemoveProductInCart(productId);
      isOpenRemoveDialog := false;
    }

    /** The dialog's Remove button: `removeProduct(productIdRemove)`. */
    method ConfirmRemove() returns (command: CartCommand)
      modifies this
      ensures command == RemoveProductInCart(old(productIdRemove)) && !isOpenRemoveDialog
      ensures productIdRemove == old(productIdRemove)
      ensures items == old(items) && cart == old(cart) && loaded == old(loaded)
    {
      command := RemoveProduct(productIdRemove);
    }
  }

  /** Typing into a line's field and pressing Enter sends exactly the quantity read from the typed text. */
  method EditThenEnter(page: CartPageState, productId: int, fieldText: string) returns (effect: KeyEffect)
    requires FirstIndex(page.items, productId).Some?
    modifies page
    ensures effect == Issue(UpdateCart(productId, ParseInt(fieldText)))
  {
    var found := page.QuantityOnChange(productId, fieldText);
    FirstIndexAfterEdit(old(page.items), productId, ParseInt(fieldText));
    effect := page.QuantityKeyDown(productId, "Enter");
  }

  /** Editing the quantity of the first line of a product leaves that line the first one of the product. */
  lemma FirstIndexAfterEdit(items: seq<Item>, productId: int, quantity: Quantity)
    requires FirstIndex(items, productId).Some?
    ensures var i := FirstIndex(items, productId).value;
      FirstIndex(items[i := items[i].(quantity := quantity)], productId) == Some(i)
  {
    var i := FirstIndex(items, productId).value;
    var edited := items[i := items[i].(quantity := quantity)];
    var j := FirstIndex(edited, productId);
    assert edited[i].productId == productId;
    if j.Some? {
      assert j.value <= i;
      assert edited[j.value].productId == productId;
    }
  }

  /** Opening the dialog on a line and confirming removes exactly that product and closes the dialog. */
  method RemoveDialogFlow(page: CartPageState, productId: int) returns (command: CartCommand)
    modifies page
    ensures command == RemoveProductInCart(productId) && !page.isOpenRemoveDialog
    ensures page.items == old(page.items) && page.cart == old(page.cart)
  {
    page.OpenRemoveConfirmDialog(productId);
    command := page.ConfirmRemove();
  }
}
