# YAS storefront and back-office core in Dafny

This project models the parts of the YAS e-commerce system that hold real logic. The model is grouped by the service or page that owns each part.

- **Back office, formatted-number input** (`FormatNumberInput`, module `NumberInput`):
  - the thousands-separator rewrite `formatNumber`;
  - the keystroke handler, which strips every character but digits and `.`, ignores a second `.`, and splits the text into what the field shows and what `onChange` receives;
  - the default-value effect, and the `setValueAs` coercion registered with the form.
- **Storefront, cart page** (module `CartPage`):
  - the plus, minus and blur handlers, modelled as the cart commands they send;
  - the merge of cart lines with product thumbnails;
  - the in-place quantity edit, the Enter key, and the remove-confirmation dialog;
  - `parseInt` on the quantity field's text, which gives `NaN` for a cleared field.
- **Payment service** (module `Payments`): the provider registry, `initPayment`, `capturePayment` with its order-status report, and `createPaymentFromEvent`.
- **Location service** (module `Locations`): country create and update. A country's name must be unique.
- **Product service, brand endpoints** (module `Brands`): get, create, update and delete a brand. A brand that still has products cannot be deleted.
- **Order service, checkouts** (module `Checkouts`):
  - creating a checkout with its items;
  - reading a pending checkout back, which only its creator may do;
  - choosing its payment method.
- **Product repository** (module `ProductQueries`): every query as a filter, ordering and paging function over the product table.
- **Cart item repository** (module `CartItems`): the finders, the two deletes, and the quantity sum.
- **Rating service, exception handler** (module `RatingErrors`): the status and error body each exception kind is answered with.

**How state is modelled.**

- Repositories are maps or sequences held by a class.
- Stored entities whose fields the services change through setters are classes: `Country`, `Brand`, `Checkout`. Methods on them carry `modifies` frames through which "no other row changes" is proved.
- Pure queries and mappings are functions. Their contracts, and lemmas beside the main ones, state what they answer; `formatNumber` and the paging are also related to independent reference definitions.
- Remote calls are parameters of the model, or commands it returns:
  - the cart service behind the cart page;
  - the payment providers;
  - the order service that `capturePayment` calls;
  - the id generators.

**Behaviour of the code worth knowing:**

- `formatNumber` leaves a number with at most three digits unchanged, so the shown text and the forwarded text agree there: "12" is shown and forwarded as "12" (`NumberInput.ShortDigitsUnchanged`). They differ for every digit string longer than three (`NumberInput.GroupedDigitsDiffer`), and for any decimal number whose whole part has more than three digits (`NumberInput.WholePartDiffers`): "1234.5" is shown as "1,234.5" and forwarded as "1234.5".
- `setValueAs` receives the display text and unformats it only when an `unformatNumber` prop is given. Without one, the form keeps the comma-separated text (`NumberInput.SetValueAs`).
- `formatNumber` also groups the digits after a decimal point: "1234.5678" is shown as "1,234.5,678" (`NumberInput.FormatNumberFractionExample`).
- In `getProductsWithFilter` and `getExportingProducts`, the path `p.brand.name` joins the brand table. A product without a brand therefore never matches, even when the brand filter is empty (`ProductQueries.MatchesFilter`).

## Model

| member | source | states |
|---|---|---|
| NumberInput.CommaBeforeDigits | backoffice/common/items/Input.tsx:81 | on a digit string the separator goes before position p exactly when 0 < p < length and the digits from p to the end are a multiple of three |
| NumberInput.FormatNumberGroupsDigits | backoffice/common/items/Input.tsx:80-82 | on any digit string `formatNumber` equals the reference grouping: three digits at a time counted from the right, joined by commas |
| NumberInput.FormatNumberExample | backoffice/common/items/Input.tsx:80-82 | "1200000" is formatted as "1,200,000" |
| NumberInput.FormatNumberSplit | backoffice/common/items/Input.tsx:81 | a character that is not a regex word character (such as `.`) splits the text: each side is formatted on its own |
| NumberInput.FormatNumberDecimal | backoffice/common/items/Input.tsx:81 | a whole part, a `.` and a fraction part of digits are each grouped by threes |
| NumberInput.FormatNumberFractionExample | backoffice/common/items/Input.tsx:81 | "1234.5678" is formatted as "1,234.5,678" |
| NumberInput.FormatNumberRemoveCommas | backoffice/common/items/Input.tsx:81 | removing every comma from the formatted text gives the input with its commas removed, for every input |
| NumberInput.FormatNumberRoundTrip | backoffice/common/items/Input.tsx:81 | for a text without commas, removing the commas from its formatted form gives the text back |
| NumberInput.FormatNumberIdempotent | backoffice/common/items/Input.tsx:80-82 | formatting an already formatted digit string changes nothing |
| NumberInput.Sanitize | backoffice/common/items/Input.tsx:100 | the sanitised text holds only digits and `.` and is no longer than the input |
| NumberInput.SanitizeAppend | backoffice/common/items/Input.tsx:100 | sanitising works character by character, so the kept characters stay in input order |
| NumberInput.SanitizeFixesKept | backoffice/common/items/Input.tsx:100 | a text of digits and dots is left unchanged |
| NumberInput.SanitizeFormatNumber | backoffice/common/items/Input.tsx:100 | sanitising a formatted text gives the same as sanitising the unformatted one |
| NumberInput.OnInputChange | backoffice/common/items/Input.tsx:97-123 | the keystroke is ignored exactly when the sanitised text has more than one `.`; in plain mode the display is the sanitised text and the original event is forwarded; in formatted mode `onChange` gets the unformatted text and the display is its formatted form |
| NumberInput.OnDigitsTyped | backoffice/common/items/Input.tsx:107-118 | typed digits in formatted mode without `unformatNumber` are shown grouped by threes and forwarded exactly as typed |
| NumberInput.DisplayIsStable | backoffice/common/items/Input.tsx:107-118 | with an unformatting that strips commas, feeding the display text back through the handler gives the same display and the same forwarded value |
| NumberInput.ShortDigitsUnchanged | backoffice/common/items/Input.tsx:80-82 | a digit string of at most three digits is shown exactly as typed |
| NumberInput.GroupedDigitsDiffer | backoffice/common/items/Input.tsx:107-118 | a formatted number of four or more digits differs from the value forwarded to `onChange` |
| NumberInput.WholePartDiffers | backoffice/common/items/Input.tsx:107-118 | a decimal number whose whole part has four or more digits is shown differently from the value forwarded to `onChange` |
| NumberInput.SetValueAs | backoffice/common/items/Input.tsx:134-139 | no coercion in plain mode; a number parsed from the unformatted field text when `unformatNumber` is given; otherwise the text is kept |
| NumberInput.FormValueMatchesForwarded | backoffice/common/items/Input.tsx:136-137 | with a comma-stripping `unformatNumber`, the form parses its number from the text the handler forwarded |
| NumberInput.InitialDisplay | backoffice/common/items/Input.tsx:84-95 | without formatting the default itself is shown; with formatting the shown text is the formatted `unformatNumber(String(default))`, which has the same digits |
| NumberInput.NumberDefaultGrouped | backoffice/common/items/Input.tsx:84-95 | a numeric default in formatted mode is shown as its decimal digits grouped by threes |
| NumberInput.FormatNumberInput.ApplyDefaultValue | backoffice/common/items/Input.tsx:84-95 | the effect leaves `inputValue` untouched without a default, and otherwise sets it to the initial display |
| NumberInput.FormatNumberInput.HandleInputChange | backoffice/common/items/Input.tsx:97-123 | an ignored keystroke changes no state and calls nothing; otherwise the display state is set and `onChange`, when given, receives the forwarded event |
| CartPage.HandlePlus | storefront/pages/cart/index.tsx:77-84 | plus adds exactly one unit of that product |
| CartPage.HandleMinus | storefront/pages/cart/index.tsx:86-95 | minus removes the line exactly when its quantity is 1, otherwise asks for quantity q-1, and for `NaN` asks for `NaN` |
| CartPage.MinusNeverSetsZero | storefront/pages/cart/index.tsx:86-95 | on a line with at least one unit, minus never asks for quantity 0 and never for more than the line holds |
| CartPage.HandleQuantityBlur | storefront/pages/cart/index.tsx:120-135 | leaving the field sends an update for that product with `parseInt` of the field's text: `NaN` when the field is cleared, the typed number when it holds digits only |
| CartPage.BlurUnchangedField | storefront/pages/cart/index.tsx:200-206 | leaving the field with the text it was rendered with sends the line's own quantity |
| CartPage.ParseInt | storefront/pages/cart/index.tsx:204-208 | `parseInt` of empty text is `NaN`; of a digit string, its decimal value |
| CartPage.ParseIntNaN | storefront/pages/cart/index.tsx:204-208 | `parseInt` gives `NaN` exactly when no digit follows the optional sign |
| CartPage.ParseIntOfIntToString | storefront/pages/cart/index.tsx:200-208 | `parseInt` reads back the decimal text of every whole number, negative ones included |
| CartPage.ParseIntStopsAtNonDigit | storefront/pages/cart/index.tsx:204-208 | `parseInt` stops at the first non-digit, so "1.5" reads as 1 |
| CartPage.FirstIndex | storefront/pages/cart/index.tsx:98 | `items.find` lands on the first line of the product, and finds nothing exactly when no line has it |
| CartPage.MergeThumbnails | storefront/pages/cart/index.tsx:53-66 | one item per cart line, in order: product id and quantity come from line i; name, slug and thumbnail come from result i |
| CartPage.CartPageState.constructor | storefront/pages/cart/index.tsx:25-43 | the initial state of the page's hooks |
| CartPage.CartPageState.Mount | storefront/pages/cart/index.tsx:142-147 | the cart is loaded on the first render only |
| CartPage.CartPageState.LoadCart | storefront/pages/cart/index.tsx:49-70 | the page takes the fetched cart and the merged items, and nothing else changes |
| CartPage.CartPageState.QuantityOnChange | storefront/pages/cart/index.tsx:97-99 | only the quantity of the first line of that product changes, to `parseInt` of the field's text (`NaN` for a cleared field); every other line and field is unchanged; with no such line nothing changes |
| CartPage.CartPageState.QuantityKeyDown | storefront/pages/cart/index.tsx:101-118 | only Enter sends an update, carrying the line's locally edited quantity; Enter on a product with no line fails |
| CartPage.CartPageState.OpenRemoveConfirmDialog | storefront/pages/cart/index.tsx:137-140 | the dialog opens and remembers the product |
| CartPage.CartPageState.CancelRemove | storefront/pages/cart/index.tsx:287 | Cancel closes the dialog and changes nothing else |
| CartPage.CartPageState.RemoveProduct | storefront/pages/cart/index.tsx:72-75 | the product's removal is requested and the dialog closes |
| CartPage.CartPageState.ConfirmRemove | storefront/pages/cart/index.tsx:288 | Remove requests the removal of the remembered product |
| CartPage.RemoveDialogFlow | storefront/pages/cart/index.tsx:283-291 | opening the dialog on a product and confirming removes exactly that product and closes the dialog |
| CartPage.EditThenEnter | storefront/pages/cart/index.tsx:97-107 | typing into the field and pressing Enter sends exactly `parseInt` of the typed text |
| CartPage.FirstIndexAfterEdit | storefront/pages/cart/index.tsx:97-105 | editing a line's quantity keeps it the first line of its product |
| Payments.RegisterLastWins | payment/src/main/java/com/yas/payment/service/PaymentService.java:41-46 | after registration every handler's provider id is a key holding the last handler with that id; other keys are unchanged |
| Payments.PaymentService.InitializeProviders | payment/src/main/java/com/yas/payment/service/PaymentService.java:41-46 | the loop leaves the registry that registering each handler in turn gives |
| Payments.PaymentService.GetPaymentHandler | payment/src/main/java/com/yas/payment/service/PaymentService.java:48-54 | returns the registered handler, or `IllegalArgumentException` with its message exactly when none is registered |
| Payments.PaymentService.InitPayment | payment/src/main/java/com/yas/payment/service/PaymentService.java:56-64 | answers exactly the status, payment id and redirect URL the selected handler gives, or the unknown-provider error |
| Payments.CapturedRow | payment/src/main/java/com/yas/payment/service/PaymentService.java:91-101 | the stored row copies every field of the captured payment |
| Payments.PaymentService.Save | payment/src/main/java/com/yas/payment/service/PaymentService.java:102 | a saved row gets the next free id and no stored row changes |
| Payments.PaymentService.CapturePayment | payment/src/main/java/com/yas/payment/service/PaymentService.java:66-89 | the order id from `updateCheckoutStatus` is set before the payment is stored; the status report carries the stored id, that order id and the status name; the response carries the same order id |
| Payments.EventPayment | payment/src/main/java/com/yas/payment/service/PaymentService.java:107-115 | status NEW exactly for cash on delivery and PROCESSING otherwise; checkout id, method and amount are copied |
| Payments.PaymentService.CreatePaymentFromEvent | payment/src/main/java/com/yas/payment/service/PaymentService.java:105-122 | stores that row under a fresh id and answers with the id |
| Locations.Country.FromPostVm | location/src/main/java/com/yas/location/service/CountryService.java:30 | a new country carries every field of the request |
| Locations.CountryService.Create | location/src/main/java/com/yas/location/service/CountryService.java:26-31 | a name already in the table fails with `DuplicatedException` and saves nothing; otherwise exactly the new country is stored and returned; names stay unique |
| Locations.Country.SetFrom | location/src/main/java/com/yas/location/service/CountryService.java:42-48 | the setters give name, code3 and the five flags the request's values and leave id and code2 as they were |
| Locations.CountryService.Update | location/src/main/java/com/yas/location/service/CountryService.java:33-51 | a name held by another country fails first; then an unknown id fails with `NotFoundException`; otherwise exactly name, code3 and the five flags are overwritten, id and code2 are kept, no other country changes, and names stay unique |
| Locations.KeepOwnName | location/src/main/java/com/yas/location/service/CountryService.java:34-37 | a country may be updated while keeping its own name |
| Brands.Brand.FromPostVm | product/src/main/java/com/yas/product/controller/BrandController.java:62 | a new brand carries the request's name and slug and has no products |
| Brands.Brand.View | product/src/main/java/com/yas/product/controller/BrandController.java:54 | the answered view shows the brand's id, name and slug |
| Brands.BrandLocationInjective | product/src/main/java/com/yas/product/controller/BrandController.java:64 | two brands never get the same location |
| Brands.BrandController.GetBrand | product/src/main/java/com/yas/product/controller/BrandController.java:50-55 | an unknown id fails with `NotFoundException`; otherwise the brand's view is answered |
| Brands.BrandController.CreateBrand | product/src/main/java/com/yas/product/controller/BrandController.java:61-66 | stores the brand built from the request under a fresh id and answers its view with location `/brands/{id}` |
| Brands.BrandController.UpdateBrand | product/src/main/java/com/yas/product/controller/BrandController.java:73-81 | an unknown id fails with `NotFoundException`; otherwise only the slug and name of that brand change |
| Brands.BrandController.DeleteBrand | product/src/main/java/com/yas/product/controller/BrandController.java:88-95 | an unknown id gives `NotFoundException`; a brand with products gives `BadRequestException` and the table is unchanged; otherwise exactly that brand is removed |
| Brands.CreateThenGet | product/src/main/java/com/yas/product/controller/BrandController.java:50-66 | a created brand is read back with the view its creation answered |
| Checkouts.ParseMethod | order/src/test/java/com/yas/order/service/CheckoutServiceTest.java:184-193 | the method parsed from a name has exactly that name; a name that is no constant's name parses to nothing |
| Checkouts.ParseMethodName | order/src/test/java/com/yas/order/service/CheckoutServiceTest.java:193 | every payment method parses back from its own name |
| Checkouts.NewItems | order/src/test/java/com/yas/order/service/CheckoutServiceTest.java:69-82 | one saved item per posted item, in order, each with the posted fields and the new checkout's id |
| Checkouts.ItemsOf | order/src/test/java/com/yas/order/service/CheckoutServiceTest.java:128 | the item rows found are exactly those of the checkout |
| Checkouts.NewItemsFoundAgain | order/src/test/java/com/yas/order/service/CheckoutServiceTest.java:120-140 | the items saved with a new checkout are exactly the rows found for it afterwards |
| Checkouts.CheckoutService.CreateCheckout | order/src/test/java/com/yas/order/service/CheckoutServiceTest.java:86-118 | stores a pending checkout under the new id with the request's email, note and coupon; answers one item per saved row, each tagged with that id, where the model's `saveAll` saves and returns one row per posted item; the item list is present even when empty |
| Checkouts.CheckoutService.GetCheckoutPendingStateWithItemsById | order/src/test/java/com/yas/order/service/CheckoutServiceTest.java:120-175 | a missing or non-pending checkout gives `NotFound`; a caller other than the creator gives `Forbidden`; the creator gets its id, email, coupon and note, and its items, or no item list when it has none |
| Checkouts.CheckoutService.UpdateCheckoutPaymentMethod | order/src/test/java/com/yas/order/service/CheckoutServiceTest.java:177-225 | an unknown id gives `NotFoundException`; no method saves and changes nothing; otherwise only the method is set to the named one and the checkout is saved |
| Checkouts.CreateThenRead | order/src/test/java/com/yas/order/service/CheckoutServiceTest.java:86-140 | the creator reads a new checkout with at least one item back with exactly the answer its creation gave |
| ProductQueries.SortNewestFirst | product/src/main/java/com/yas/product/repository/ProductRepository.java:28 | the result is ordered by `lastModifiedOn`, newest first, and is a permutation of the input |
| ProductQueries.PageOf | product/src/main/java/com/yas/product/repository/ProductRepository.java:29-31 | a page holds at most `pageSize` rows, from position `pageNo * pageSize`, and counts every row |
| ProductQueries.PagesConcatenate | product/src/main/java/com/yas/product/repository/ProductRepository.java:29-31 | pages 0 to n-1 laid end to end are the first n·size rows, without gaps or repeats |
| ProductQueries.AllPages | product/src/main/java/com/yas/product/repository/ProductRepository.java:29-31 | enough pages hold every row |
| ProductQueries.FindAllByBrandAndIsPublishedTrue | product/src/main/java/com/yas/product/repository/ProductRepository.java:16 | exactly the published products of that brand |
| ProductQueries.FindByKeyAndIsPublishedTrue | product/src/main/java/com/yas/product/repository/ProductRepository.java:18-22 | the slug, gtin and sku finders find nothing exactly when no published product has the key; a product found is published, has the key and is the only such row |
| ProductQueries.UniqueKeyFound | product/src/main/java/com/yas/product/repository/ProductRepository.java:18-22 | when published products have distinct keys, the finder finds the product holding the key |
| ProductQueries.GetExportingProducts | product/src/main/java/com/yas/product/repository/ProductRepository.java:33-38 | exactly the visible, published products with a brand whose ASCII-lower-cased name contains the search text and whose brand matches (unless the brand filter is empty), newest first |
| ProductQueries.GetProductsWithFilter | product/src/main/java/com/yas/product/repository/ProductRepository.java:24-31 | a page of rows that satisfy the filter, newest first, with the count of all matches |
| ProductQueries.FilterPagesAreTheExport | product/src/main/java/com/yas/product/repository/ProductRepository.java:24-38 | each page is a page of the export, and the pages together give the export in order |
| ProductQueries.GetFeaturedProduct | product/src/main/java/com/yas/product/repository/ProductRepository.java:42-45 | page `pageNo` of one newest-first arrangement of all featured, visible, published products, with the count of them |
| ProductQueries.FeaturedPagesCover | product/src/main/java/com/yas/product/repository/ProductRepository.java:42-45 | every page is cut from the same newest-first arrangement of the matches, and reading the pages in turn gives each match once |
| ProductQueries.FindByProductNameAndCategorySlugAndPriceBetween | product/src/main/java/com/yas/product/repository/ProductRepository.java:47-59 | a page of visible, published name matches in the category (unless the slug is empty) within the given price bounds: page `pageNo` of one newest-first arrangement of all matches, with the count of them |
| ProductQueries.CategoryAndPricePagesCover | product/src/main/java/com/yas/product/repository/ProductRepository.java:47-59 | every page is cut from the same newest-first arrangement of the matches, and reading the pages in turn gives each match once |
| ProductQueries.NewestFirstPagesCover | product/src/main/java/com/yas/product/repository/ProductRepository.java:42-59 | for any matches, the pages of the newest-first paging are cut from one newest-first permutation of them and together give all of it |
| ProductQueries.NewestFirstUnique | product/src/main/java/com/yas/product/repository/ProductRepository.java:28 | without ties in `lastModifiedOn`, two newest-first arrangements of the same rows are equal |
| ProductQueries.AnyNewestFirstOrderSamePages | product/src/main/java/com/yas/product/repository/ProductRepository.java:28-59 | without ties in `lastModifiedOn`, a page cut from any newest-first order of the matches is the model's page |
| ProductQueries.PriceBoundsInclusive | product/src/main/java/com/yas/product/repository/ProductRepository.java:50-51 | a product priced exactly at both bounds is kept |
| ProductQueries.FindAllByIdIn | product/src/main/java/com/yas/product/repository/ProductRepository.java:40 | exactly the products whose id is listed |
| ProductQueries.FindProductForWarehouse | product/src/main/java/com/yas/product/repository/ProductRepository.java:61-69 | exactly the products whose name or sku contains the search text, ignoring the case of ASCII letters, and that the selection keeps |
| ProductQueries.WarehouseSelectionsPartition | product/src/main/java/com/yas/product/repository/ProductRepository.java:64-66 | given an id list, every 'ALL' match is in exactly one of the 'YES' and 'NO' answers |
| ProductQueries.WarehouseWithoutIds | product/src/main/java/com/yas/product/repository/ProductRepository.java:65-66 | without an id list, 'NO' keeps every match and 'YES' keeps none |
| CartItems.FindAllByCart | cart/src/main/java/com/yas/cart/repository/CartItemRepository.java:15 | exactly the items of that cart |
| CartItems.FindByCartIdAndProductId | cart/src/main/java/com/yas/cart/repository/CartItemRepository.java:17 | finds nothing exactly when no item has that cart and product; an item found is the only one |
| CartItems.OnlyRowFound | cart/src/main/java/com/yas/cart/repository/CartItemRepository.java:17 | when exactly one row has that cart and product, the finder answers that row |
| CartItems.CountItemInCart | cart/src/main/java/com/yas/cart/repository/CartItemRepository.java:22-23 | no value exactly when the cart has no items; otherwise the sum of their quantities |
| CartItems.OtherRowsKeepOtherCarts | cart/src/main/java/com/yas/cart/repository/CartItemRepository.java:19-21 | a delete leaves the items of every other cart as they were, in order |
| CartItems.TotalSplits | cart/src/main/java/com/yas/cart/repository/CartItemRepository.java:19-23 | a cart's total is the total of the items a delete removes plus the total of those it keeps |
| CartItems.CountAfterDelete | cart/src/main/java/com/yas/cart/repository/CartItemRepository.java:19-23 | after a delete the cart's count has dropped by exactly the removed quantities |
| CartItems.CartItemTable.DeleteByCartIdAndProductId | cart/src/main/java/com/yas/cart/repository/CartItemRepository.java:19 | removes exactly that cart's items of that product; every other item is unchanged |
| CartItems.CartItemTable.DeleteByCartIdAndProductIdIn | cart/src/main/java/com/yas/cart/repository/CartItemRepository.java:21 | removes exactly that cart's items of the listed products; other carts' items are unchanged |
| RatingErrors.Handle | rating/src/main/java/com/yas/rating/exception/ApiExceptionHandler.java:23-87 | only the catch-all answers 500; bad requests and both validation failures answer 400; non-validation kinds carry the message as detail and no field errors; validation kinds carry the fixed detail and one entry per error |
| RatingErrors.FieldErrorTexts | rating/src/main/java/com/yas/rating/exception/ApiExceptionHandler.java:48-52 | one `field message` entry per field error, in order |
| RatingErrors.ViolationTexts | rating/src/main/java/com/yas/rating/exception/ApiExceptionHandler.java:60-64 | one `class path: message` entry per violation, in order |
| RatingErrors.HandleConstraintViolation | rating/src/main/java/com/yas/rating/exception/ApiExceptionHandler.java:58-68 | the loop answers 400 "Bad Request" with one entry per violation, in order |
| RatingErrors.StatusCodeAgrees | rating/src/main/java/com/yas/rating/exception/ApiExceptionHandler.java:23-87 | the status code written in the body begins with the three digits of the response's status, and those digits denote its numeric value |
| RatingErrors.ResponseTable | rating/src/main/java/com/yas/rating/exception/ApiExceptionHandler.java:23-87 | the status and title of each kind: 404 "NotFound", 400 "Bad request", 409 "Resource has existed", 400 "Bad Request", 403 "Access Denied", 500 "Internal Server Error" |
| RatingErrors.ClientErrors | rating/src/main/java/com/yas/rating/exception/ApiExceptionHandler.java:23-87 | every kind but the catch-all is a 4xx answer |

## Left out

- `ParseInt`: leading white space and the `0x` prefix are not modelled, because the value of a `type="number"` field holds neither. The result is an exact integer, while JavaScript's is a double: a digit run above 2^53 is rounded there ("9007199254740993" reads as 9007199254740992). A `NaN` quantity is sent as is; its JSON form (`null`) is not modelled.
- Rendering (JSX), toasts and logging are not modelled. This includes the hard-coded prices on the cart page and the servlet path, which is used only in log lines.
- On the cart page, promise ordering is not modelled. Each command is returned, and the reload after it is a separate `LoadCart` call.
- A rejected thumbnail result is not modelled: `MergeThumbnails` receives the fulfilled values, one per cart line.
- The cart service, the order service, the payment providers and the product services are remote or not shown. Their answers are parameters of the model.
- `SetValueAs`: `Number(...)` is floating-point parsing. The model returns the text it would parse.
- `JsString`: numbers are integers here, so JavaScript's rendering of fractions and exponents is not modelled.
- Prices (`Double`) and amounts (`BigDecimal`) are integers in the model, compared exactly.
- Database-generated ids are counters. A checkout's UUID is a parameter. The auditing that fills `createdBy` is the current user passed in.
- `toModel`, `fromModel` and the checkout mapper are not part of this model. They are assumed to copy the fields named in README and in the datatypes.
- The rating service's `ErrorVm` is not part of this model. Its three-argument constructor is assumed to give an empty field-error list, as the media service's `ErrorVm` does.
- The production `CheckoutService` is not part of this model. Its behaviour is taken from its tests.
  - An unknown payment-method name failing with `IllegalArgument` is inferred from `Enum.valueOf`.
  - The lookup runs before the name is parsed, because the test at lines 196-206 expects `NotFoundException` for an invalid name.
  - `CreateCheckout`: the answer lists the rows that `saveAll` returns. The test at lines 104-118 mocks `saveAll` to return no rows for posted items and expects an empty list. The model's `saveAll` stores and returns every posted row, so the answer has one item per posted item.
  - `GetCheckoutPendingStateWithItemsById`: no test at lines 120-175 has a missing or non-pending checkout. The `NotFound` answer for them is inferred.
  - `UpdateCheckoutPaymentMethod`: the tests give an unknown id only with a non-null method name. That an unknown id with a null method also fails with `NotFoundException` is inferred from the lookup running first.
- The `CheckoutState` values other than PENDING, and the order service's payment-method constants, are not shown. The model uses an open "other state" and the payment service's three methods.
- `ToLower`: folds only the ASCII letters A-Z. SQL `LOWER` folds every letter, so "École" contains the search text "éc" in the database but not in the model.
- `GetExportingProducts`, `GetProductsWithFilter`, `FindByProductNameAndCategorySlugAndPriceBetween`, `FindProductForWarehouse`: their case-insensitive matching uses `ToLower`, so it agrees with the database only on ASCII letters.
- SQL details:
  - LIKE wildcards inside search text are not modelled: matching is a plain substring test.
  - The LEFT JOIN on categories can return duplicate rows; the model does not.
  - The database's order among products with equal `lastModifiedOn` is unspecified. The model keeps table order for them.
  - `NewestFirstPagesCover`, `FilterPagesAreTheExport`, `FeaturedPagesCover`, `CategoryAndPricePagesCover`: they describe the database's paging only when no two matches share `lastModifiedOn`. The database sorts each page query on its own, so with ties across a page boundary a row can appear on two pages or on none. Without ties every newest-first order is the model's order (`NewestFirstUnique`, `AnyNewestFirstOrderSamePages`).
  - `findAllByIdIn` and the derived finders have no ORDER BY. The model answers in table order.
- `CountItemInCart`: does not model the `Integer` width of the answer. The sum is unbounded.
- `ConstraintViolationException.getConstraintViolations()` is a set with no fixed iteration order. The model takes the violations in the order given.
- Which handler Spring chooses for an exception class is modelled as the handler kinds, not as a class hierarchy.
- `listBrands` delegates to `BrandService`, which is not shown, so it is not modelled.
- Concurrent requests and transactions are not modelled. For example, two creates racing for the same country name.
- Country flags that are `null` are not modelled.
