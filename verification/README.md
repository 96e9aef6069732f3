# voentorg: cart, stock and checkout, and the shop's page scripts, in Dafny

voentorg is a small Django storefront for military-surplus goods. This project models
its business core and proves properties of the model:

- **Server side** (`voentorg/models.py`). Products have a stock, a price and an
  availability flag. Each user has a cart: one line per product, each line holding at
  least one unit. `add_product`, `remove_product`, `update_quantity` and `clear` change
  the cart. `create_order` turns the cart into an order in three steps. First it checks
  every line. Then it creates the order with the default `new` status and the cart
  total, writes one order line per cart line with a price snapshot, and takes each
  ordered quantity off the stock. Finally it empties the cart. The smaller rules are
  modelled too: the slug loop of `Product.save`, the single main image of
  `ProductImage.save`, `Order.update_status`, the subtotal fallback of
  `OrderItem.save`, the contact-phone fallback of `Order.save`, the category path of
  `get_full_path`, and the user name helpers.
- **Client side** (`voentorg/static/voentorg/js`). The `+7 (XXX) XXX-XX-XX` phone mask
  (the same code in `checkout.js` and `auth.js`). The e-mail, login and phone checks.
  The checkout and registration form checks. The quantity selector and the wishlist
  button of `product.js`. The header cart count. The CSRF cookie reader of `main.js`.

Modelling choices:

- Prices and amounts are whole kopecks; the source stores decimals with two places.
  A product's price is a `nat`, as its `MinValueValidator(0)` demands; order amounts
  and subtotals are `int`.
- `Product`, `Cart`, `Order`, `StatusTable` and `ImageTable` are classes whose fields
  the methods update in place. Categories, cart lines, order lines and statuses are
  values.
- A category's parent chain is a value, so it is finite and acyclic. The source would
  loop forever on a cycle of parents.
- `slugify` and `decodeURIComponent` are functions passed as parameters. The clock
  (`new Date()`) becomes a parameter too. The regular expressions are written out as
  predicates on characters.
- JavaScript's string built-ins used by the scripts are modelled with their own edge
  cases: `\s` and `trim()` white space, `substring` clamping, `split`, `parseInt`
  (white space, sign, `0x`, digit runs, `NaN`) and `length` in UTF-16 code units.
- A cart lists its newest line first, as the `-added_at` ordering does. So a product
  added to the cart gets a new line at the front, and checkout walks the lines in that
  order.
- `add_product` performs no stock check and no clamping. There is no guest cart kept
  in the session and no cart merge at login anywhere in this code, so neither is
  modelled.
- Order statuses are rows of a table, not a fixed list. `get_default_status` creates
  the `new` row when it is missing. An existing `new` row is returned even when it is
  inactive, and `update_status` would refuse that same row.
- The page's login rule and the `username` field's validator (`voentorg/models.py`
  lines 11-21) differ in one case. Python's `$` also matches just before a final line
  feed, so the validator accepts `abc` followed by a line feed, and the page's
  JavaScript regular expression rejects it (`Users.TrailingLineFeedAccepted`). The
  registration form strips the login before the validator runs, so through that form
  the login is stored as `abc`.
- Every `save()` of a product re-runs the slug rule, including the one at the end of
  `decrease_stock` and `increase_stock`. A product stored with an empty slug (a name
  that `slugify` turns into nothing, such as a Cyrillic one) is renamed by that save:
  the empty slug is itself taken, so the loop moves on to `-1`, `-2`, …
  (`Catalog.EmptySlugRenamed`). The stock methods and checkout therefore take the
  stored slugs and `slugify` as parameters and state the slug each product ends with.

## Model

| member | source | states |
|---|---|---|
| Users.FullName | voentorg/models.py:73-77 | with both names filled in: the last name, one space, the first name; otherwise the login |
| Users.ShortName | voentorg/models.py:79-81 | the first name when filled in, otherwise the login |
| Users.ShortNameEndsFullName | voentorg/models.py:73-81 | with both names set, the short name ends the full name; without a first name both are the login |
| Users.NamesNeverEmpty | voentorg/models.py:11-21 | a user whose login passes the `username` field's validator always has non-empty full and short names |
| Users.ClientLoginAcceptedByServer | voentorg/models.py:11-19 | every login the registration page accepts also passes the `username` field's length and pattern validator |
| Users.ServerLoginShape | voentorg/models.py:15-16 | the only logins the `username` field's validator accepts beyond the page's rule are a valid login followed by one line feed |
| Users.TrailingLineFeedAccepted | voentorg/models.py:15-16 | `abc` plus a line feed passes the `username` field's pattern but not the page's |
| Catalog.PathNames | voentorg/models.py:181-188 | the path has one name per level, starts at the root's name and ends with the category's own |
| Catalog.GetFullPath | voentorg/models.py:181-188 | the walk up the parents yields the root-to-category names joined with " → " |
| Catalog.ChildPath | voentorg/models.py:181-188 | a child's path is its parent's path, " → " and its own name |
| Catalog.RootPath | voentorg/models.py:181-188 | a category without a parent has its own name as path |
| Catalog.SaveCategory | voentorg/models.py:175-179 | an empty slug becomes `slugify(name)`, a set slug is kept, name and parent never change |
| Catalog.SaveCategoryStable | voentorg/models.py:175-179 | saving a category twice gives the same category as saving it once |
| Catalog.CategorySlugMayStayEmpty | voentorg/models.py:175-179 | unlike a product's save, a category whose name `slugify` turns into nothing keeps an empty slug, save after save |
| Catalog.SlugCandidate | voentorg/models.py:262-265 | the k-th slug tried is the base for k = 0 and `base-k` after that |
| Catalog.SlugCandidateInjective | voentorg/models.py:264-266 | different collision counts give different slugs, so the loop never retries a slug |
| Catalog.CandidatesCount | voentorg/models.py:264-266 | the first n slugs tried are n distinct strings |
| Catalog.CollisionsBounded | voentorg/models.py:264-266 | the loop collides at most as many times as there are stored slugs, so it ends |
| Catalog.Product.InStock | voentorg/models.py:269-272 | the product is in stock exactly when at least one unit is left |
| Catalog.Product.DecreaseStock | voentorg/models.py:274-282 | a quantity ≤ 0 is refused, then a quantity above the stock (reporting the stock), changing neither stock nor slug; otherwise the stock falls by exactly that quantity and stays ≥ 0, the product stays in stock exactly when the quantity was below the old stock, and the trailing `save()` applies the slug rule against the stored slugs |
| Catalog.Product.IncreaseStock | voentorg/models.py:284-290 | a quantity ≤ 0 is refused and changes nothing; otherwise the stock grows by exactly that quantity, a product with a non-negative stock is then in stock, and the trailing `save()` applies the slug rule against the stored slugs |
| Catalog.Product.Save | voentorg/models.py:258-267 | the stock is kept; a set slug is kept; an empty one becomes the first of `base`, `base-1`, `base-2`, … that no stored product uses, every earlier one being taken |
| Catalog.EmptySlugRenamed | voentorg/models.py:258-267 | when a product with an empty slug is stored, its next save gives it a non-empty slug |
| Images.MainCleared | voentorg/models.py:329-330 | the bulk update clears the main flag on the product's rows and changes nothing else |
| Images.Saved | voentorg/models.py:327-331 | the image is in the table afterwards, keys stay unique, and every other row survives except a main image of the same product when the saved image is main |
| Images.Stored | voentorg/models.py:331 | the saved row is in the table, other rows stay, nothing else appears, keys stay unique |
| Images.OnlyMainImage | voentorg/models.py:327-331 | after saving a main image it is the only main image of its product |
| Images.OtherProductsUntouched | voentorg/models.py:327-331 | rows of other products keep all their fields, main flag included |
| Images.SavePreservesTable | voentorg/models.py:327-331 | saving keeps keys unique and never gives a product two main images |
| Images.ImageTable.Save | voentorg/models.py:327-331 | the table becomes the saved table, keeps its invariant and holds the image |
| Orders.FindByCode | voentorg/models.py:128-134 | finds a status exactly when one has the code, and returns a row with that code |
| Orders.FindActive | voentorg/models.py:567 | finds a status exactly when an active one has the code, and returns such a row |
| Orders.FindActiveAgrees | voentorg/models.py:94-111 | with unique codes, the active lookup returns the coded row when it is active and nothing otherwise |
| Orders.StatusTable.GetDefaultStatus | voentorg/models.py:125-135 | returns the existing `new` row, active or not, leaving the table as it was; otherwise appends and returns the default `new` row |
| Orders.FindByCodeUnique | voentorg/models.py:128-134 | with unique codes the lookup by code returns the one row carrying that code |
| Orders.InactiveDefaultStillUsed | voentorg/models.py:125-135 | in any table with unique codes holding an inactive `new` row, that row is the default status while the active lookup of `update_status` misses it |
| Orders.ContactPhoneOnSave | voentorg/models.py:553-557 | a given phone is kept; an empty one takes the user's profile phone |
| Orders.ContactPhoneStable | voentorg/models.py:553-557 | applying the fallback twice gives the same phone as once |
| Orders.SavedSubtotal | voentorg/models.py:618-622 | a missing or zero subtotal becomes price × quantity; any other is kept |
| Orders.SnapshotSubtotalKept | voentorg/models.py:618-622 | helper for checkout, one step from the subtotal rule: the snapshot subtotal `create_order` passes is stored as given, zero included |
| Orders.UnitsAtLeastLines | voentorg/models.py:559-562 | with every quantity at least 1, the units of an order are at least its number of lines |
| Orders.Order.TotalItems | voentorg/models.py:559-562 | the units of an order with positive quantities are at least its number of lines |
| Orders.Order.constructor | voentorg/models.py:423-430 | the new order holds the given fields, the phone after the `save` fallback, and no lines |
| Orders.Order.AddItem | voentorg/models.py:434-440 | one line is appended with the subtotal rule of `OrderItem.save`; status and phone are kept |
| Orders.Order.UpdateStatus | voentorg/models.py:564-572 | succeeds exactly when an active status has the code, whatever the current status; then the status is that row; otherwise nothing changes |
| Carts.LineTotal | voentorg/models.py:485-488 | a line's total is never negative for a non-negative quantity, and a line of at least one unit costs at least the unit price |
| Carts.Cart.constructor | voentorg/signals.py:6-10 | the cart created for a new user belongs to that user and has no lines |
| Carts.QuantityAt | voentorg/models.py:477 | with one line per product, a product's quantity is the one on its line |
| Carts.QuantitiesAgree | voentorg/models.py:477 | two carts agreeing on all lines but product p's agree on every other product's quantity |
| Carts.AddedSpec | voentorg/models.py:369-384 | specifies `Added`: adding q > 0 keeps one positive line per product, adds exactly q to the product and leaves every other product's quantity alone |
| Carts.RemovedSpec | voentorg/models.py:386-393 | specifies `Removed`: removing keeps the cart well formed, leaves the product without a line, deletes one line if it had one and none otherwise, and leaves other products alone |
| Carts.WithQuantitySpec | voentorg/models.py:395-406 | specifies `WithQuantity`: setting q > 0 keeps the cart well formed, gives the product exactly q and leaves other products alone |
| Carts.WithQuantityOfAbsentIsAdded | voentorg/models.py:405-406 | for a product without a line, setting a quantity is the same as `add_product` |
| Carts.NoUnitsMeansEmpty | voentorg/models.py:359-362 | with positive quantities, the unit count is at least the number of lines and zero exactly for an empty cart |
| Carts.TotalPriceNonNegative | voentorg/models.py:364-367 | with positive quantities the cart total is never negative |
| Carts.OrderLines | voentorg/models.py:433-440 | one order line per cart line, in order, each with the product, quantity, price snapshot and saved subtotal |
| Carts.SubtotalsMatchTotal | voentorg/models.py:423-440 | the subtotals of the order lines add up to the cart total the order was created with |
| Carts.OrderableLineInStock | voentorg/models.py:417-420 | helper for checkout, one step from the definitions: a line that passes the checkout check has its product in stock |
| Carts.Fulfil | voentorg/models.py:432-442 | for checked lines: every order line is appended, no stock decrease is refused, each product's stock falls by exactly its quantity, and a set slug is kept while an empty one of a stored product becomes non-empty |
| Carts.Cart.TotalItems | voentorg/models.py:359-362 | the unit count is zero exactly for an empty cart and at least one per line |
| Carts.Cart.TotalPrice | voentorg/models.py:364-367 | the cart total is never negative |
| Carts.Cart.AddProduct | voentorg/models.py:369-384 | a quantity ≤ 0 is refused and changes nothing; otherwise the product's line grows by the quantity or is created, and the line is returned |
| Carts.Cart.RemoveProduct | voentorg/models.py:386-393 | returns true exactly when the product had a line; the line is gone; on false the cart is unchanged |
| Carts.Cart.UpdateQuantity | voentorg/models.py:395-406 | a quantity ≤ 0 acts as `remove_product`; otherwise the product ends with exactly that quantity, its line created if missing |
| Carts.Cart.Clear | voentorg/models.py:408-410 | the cart has no lines |
| Carts.Cart.FindUnorderable | voentorg/models.py:417-420 | returns -1 exactly when every line's product is available with enough stock, else the first line that is not |
| Carts.FulfilLine | voentorg/models.py:434-442 | one pass of the loop: the snapshot line is appended, the order's status and phone are kept, the product's stock falls by the line's quantity and stays ≥ 0, and its slug follows the slug rule of the trailing `save()` |
| Carts.Cart.PlaceOrder | voentorg/models.py:423-445 | after both checks passed: the order has the `new` status, the cart total as amount and as sum of subtotals, one snapshot line per cart line and the phone fallback; every stock falls by exactly its quantity and stays ≥ 0, a set slug is kept and an empty one of a stored product becomes non-empty; the status table gains the default `new` row only when it had none; the cart is empty |
| Carts.Cart.CreateOrder | voentorg/models.py:412-447 | refuses an empty cart, then the first unorderable line, changing nothing (cart, stocks, slugs and status table); otherwise the new order has the `new` status, the cart total as amount and as sum of subtotals, one snapshot line per cart line and the phone fallback; every stock falls by exactly its quantity and stays ≥ 0, a set slug is kept and an empty one of a stored product becomes non-empty; the status table gains the default `new` row only when it had none; the cart is empty |
| JsString.KeepDigits | voentorg/static/voentorg/js/checkout.js:29 | `replace(/\D/g, '')` keeps only digits and never lengthens the text |
| JsString.KeepDigitsIdempotent | voentorg/static/voentorg/js/product.js:73-76 | filtering the digits twice is the same as once |
| JsString.BlankIffAllWhiteSpace | voentorg/static/voentorg/js/checkout.js:61-83 | `!value.trim()` holds exactly when every character is white space |
| JsString.Substring | voentorg/static/voentorg/js/checkout.js:36-47 | with `from ≤ to` the length is the distance between the two indices clamped to the text; for a range inside the text the result is exactly that slice |
| JsString.Split | voentorg/static/voentorg/js/main.js:282 | there is at least one part and no part contains the separator |
| JsString.JoinSplit | voentorg/static/voentorg/js/main.js:282 | splitting on `;` loses nothing: joining the parts back gives the cookie string |
| JsString.TrimStartShape | voentorg/static/voentorg/js/main.js:284 | trimming the front drops exactly a prefix of white space: the result is a suffix of the input, the part removed is all white space, and the result does not start with white space |
| JsString.TrimEndShape | voentorg/static/voentorg/js/main.js:284 | trimming the end drops exactly a suffix of white space: the result is a prefix of the input, the part removed is all white space, and the result does not end with white space |
| JsString.ParseIntOfIntToString | voentorg/static/voentorg/js/product.js:47-57 | a number written into the field reads back as the same number |
| JsString.ParseIntOfNumberToString | voentorg/static/voentorg/js/product.js:61-71 | any `parseInt` result written into the field reads back as itself, `NaN` included |
| JsString.ParseIntOfNaN | voentorg/static/voentorg/js/product.js:62 | the text `NaN` reads as `NaN` |
| JsString.ParseIntSkipsWhiteSpace | voentorg/static/voentorg/js/product.js:47 | leading white space does not change what `parseInt` reads |
| JsString.ParseIntOfBlank | voentorg/static/voentorg/js/product.js:47 | an empty or blank field reads as `NaN` |
| JsString.Utf16Length | voentorg/static/voentorg/js/auth.js:56 | a password's `length` counts at least one unit and at most two per character |
| Patterns.EmailTest | voentorg/static/voentorg/js/checkout.js:99-102 | true exactly for: a non-empty run without white space or `@`, one `@`, then a run without them containing a `.` that is neither its first nor its last character |
| PhoneMask.MaskedLength | voentorg/static/voentorg/js/checkout.js:36-47 | the mask is at most 18 characters, exactly 18 from 11 digits on |
| PhoneMask.MaskedDigits | voentorg/static/voentorg/js/checkout.js:34-47 | the digits of the mask are `7` followed by digits 2 to 11 of the input: the first digit is replaced and those past the 11th dropped |
| PhoneMask.FormattedIdempotent | voentorg/static/voentorg/js/checkout.js:11-13 | re-running the handler on a formatted value leaves it unchanged |
| PhoneMask.FormattedKeepsTenDigits | voentorg/static/voentorg/js/checkout.js:104-108 | formatting keeps the "at least ten digits" verdict of the typed text |
| Checkout.FormatPhoneNumber | voentorg/static/voentorg/js/checkout.js:27-50 | a field without digits is untouched; otherwise the field becomes the mask of its digits |
| Checkout.IsValidEmail | voentorg/static/voentorg/js/checkout.js:99-102 | true exactly when the e-mail pattern matches; a match is never blank |
| Checkout.IsValidPhone | voentorg/static/voentorg/js/checkout.js:104-108 | true exactly when the text holds at least ten digits, whatever else it holds; such a text is never blank |
| Checkout.FormattedPhoneValid | voentorg/static/voentorg/js/checkout.js:104-108 | a masked field passes the phone check exactly when at least ten digits were typed |
| Checkout.ValidateCheckoutForm | voentorg/static/voentorg/js/checkout.js:52-97 | every field gets its mark (missing, malformed or cleared) with no short-circuit; valid exactly when the e-mail and phone are valid, the trimmed address is non-empty and the terms are accepted |
| Auth.ValidateUsername | voentorg/static/voentorg/js/auth.js:135-138 | true exactly for 3 to 30 characters, each a Latin letter, digit or underscore; its partner is `Users.ClientLoginAcceptedByServer`: every login it accepts passes the `username` field's validator |
| Auth.ValidateEmail | voentorg/static/voentorg/js/auth.js:140-143 | the same acceptance rule as the checkout page's e-mail check |
| Auth.FormatPhoneNumber | voentorg/static/voentorg/js/auth.js:145-166 | the same result as the checkout page's mask |
| Auth.ValidateRegistrationForm | voentorg/static/voentorg/js/auth.js:30-78 | each field is marked independently; valid exactly when login and e-mail are valid, the first password has ≥ 8 UTF-16 units, both passwords are equal, and the terms box exists and is checked |
| Auth.ValidatePasswords | voentorg/static/voentorg/js/auth.js:116-133 | nothing happens without both fields; the first is marked exactly when non-empty and shorter than 8; the second exactly when non-empty and different from the first |
| Auth.AcceptedFormHasNoPasswordMarks | voentorg/static/voentorg/js/auth.js:56-69 | passwords that pass the submit check carry no live marks |
| Auth.EmptyPasswordOnlyRejectedAtSubmit | voentorg/static/voentorg/js/auth.js:122 | an empty first password is not marked while typing, and it has 0 < 8 UTF-16 units, so the submit check's length test fails |
| LocalCart.ReduceIsSum | voentorg/static/voentorg/js/product.js:131 | the `reduce` from an initial value equals that value plus the sum of the quantities |
| LocalCart.CartCount | voentorg/static/voentorg/js/main.js:61-62 | the fallback header count is the sum of the stored quantities, 0 for an empty list |
| LocalCart.CartCountAppend | voentorg/static/voentorg/js/main.js:61-62 | the count of two lists side by side is the sum of their counts |
| ProductPage.AfterMinus | voentorg/static/voentorg/js/product.js:46-51 | from a value above 1 the field reads one less; otherwise it is untouched; it never goes below 1 |
| ProductPage.AfterPlus | voentorg/static/voentorg/js/product.js:53-59 | from a value below max the field reads one more; otherwise (NaN included) it is untouched; it never exceeds max |
| ProductPage.AfterChange | voentorg/static/voentorg/js/product.js:61-71 | NaN or a value below min reads min, above max reads max, otherwise the text is kept; with min ≤ max the result is in range |
| ProductPage.QuantityInput.OnMinusClick | voentorg/static/voentorg/js/product.js:46-51 | the field becomes the minus-click result |
| ProductPage.QuantityInput.OnPlusClick | voentorg/static/voentorg/js/product.js:53-59 | the field becomes the plus-click result |
| ProductPage.QuantityInput.OnChange | voentorg/static/voentorg/js/product.js:61-71 | the field becomes the clamped value |
| ProductPage.QuantityInput.OnInput | voentorg/static/voentorg/js/product.js:73-76 | the field keeps only its digits, and filtering it again changes nothing |
| ProductPage.ClicksStayInRange | voentorg/static/voentorg/js/product.js:46-59 | from a quantity that reads between 1 and max, both clicks give a quantity that still reads between 1 and max |
| ProductPage.Without | voentorg/static/voentorg/js/product.js:169 | no entry with the id remains, every other entry stays, nothing is added, and an absent id changes nothing |
| ProductPage.WithoutAppend | voentorg/static/voentorg/js/product.js:169 | the kept entries stay in their order: filtering a concatenation is the concatenation of the filtered parts |
| ProductPage.WithoutCounts | voentorg/static/voentorg/js/product.js:169 | every entry with another id is kept as many times as it occurred, and none with the id is kept |
| ProductPage.DisplayName | voentorg/static/voentorg/js/product.js:147 | the stored name is never empty: the page heading when it has text, otherwise a name ending in the product id |
| ProductPage.WithoutShrinks | voentorg/static/voentorg/js/product.js:169 | removing a present id shortens the list |
| ProductPage.Toggled | voentorg/static/voentorg/js/product.js:150-177 | the id is listed afterwards exactly when it was not before; an absent id gets one entry at the end; a present one shortens the list |
| ProductPage.ToggleWishlist | voentorg/static/voentorg/js/product.js:145-177 | the stored list becomes the toggled list, named after the page heading or "Товар #id"; the button state is the new membership |
| ProductPage.UpdateCartCount | voentorg/static/voentorg/js/product.js:129-138 | the header shows the sum of the stored quantities |
| MainScript.CsrfEntryShape | voentorg/static/voentorg/js/main.js:285 | an entry matches exactly when it is at least 10 characters long and starts with `csrftoken=` |
| MainScript.NoLooseMatch | voentorg/static/voentorg/js/main.js:285 | `xcsrftoken=abc` does not match, `csrftoken=abc` does |
| MainScript.TokenInNone | voentorg/static/voentorg/js/main.js:283-291 | no token exactly when no trimmed entry is named `csrftoken` |
| MainScript.TokenInIsFirst | voentorg/static/voentorg/js/main.js:283-288 | when entry i is the first trimmed entry named `csrftoken`, the token is the decoded rest of that entry; later ones are ignored |
| MainScript.GetCsrfToken | voentorg/static/voentorg/js/main.js:278-292 | null for an empty cookie string; otherwise the loop returns the token of the first matching entry, or null |

## Left out

- The ORM and the database: querysets, `get_or_create`, primary key allocation, `Meta` orderings and indexes, timestamps (`auto_now`, `timezone.now`), and `IntegrityError` on duplicate unique values. Tables are sequences or fields of the classes above.
- Transactions and concurrency: `create_order` runs without a transaction or locking; the model is one sequential request.
- Field validators that `save()` does not run: the phone patterns on `CustomUser.phone` and `Order.contact_phone`, the e-mail field check, and `MinValueValidator` on stock. The model keeps stock at or above zero through the stock methods instead.
- Catalog.Product.price is a `nat`: prices are assumed ≥ 0 as `MinValueValidator(0)` demands, though `save()` does not enforce it; the non-negative totals (`Carts.LineTotal`, `Carts.TotalPriceNonNegative`, `Carts.Cart.TotalPrice`) rely on it.
- Decimal width (`max_digits=10`): amounts are unbounded kopecks.
- The registration form (`voentorg/forms.py` lines 6-33, through Django's `UserCreationForm`) strips white space around the login before the `username` validator runs; the model states the validator's rule alone.
- ProductPage.AfterMinus: JavaScript numbers are doubles; the model uses exact integers, so values above 2^53, where `value - 1` loses precision, are not modelled.
- ProductPage.AfterPlus: the same exact-integer reading; `value + 1` above 2^53 is not modelled.
- JsString.ParseIntOfIntToString: holds for exact integers; with doubles the round trip fails above 2^53, and `String` switches to exponent form from 10^21.
- JsString.ParseInt: returns an exact integer where JavaScript returns the nearest double.
- MainScript.GetCsrfToken: `decode` is a total function; `decodeURIComponent` throwing `URIError` on a malformed `%` escape (main.js line 286) is not modelled.
- Orders.Order.UpdateStatus: the `save()` it triggers re-applies the phone fallback; its `updated_at` stamp is not modelled.
- Images.ImageTable.Save: the image key is given by the caller; key allocation for a new row is not modelled.
- The one cart per new user created by a signal, and the one-to-one user link: the model starts from a constructed empty cart.
- `__str__` methods, display ordering of images, and the `Category.save` uniqueness of slugs.
- Page glue: DOM lookups, `showFieldError`/`clearFieldError` styling, `showNotification`, icons, timers, `fetch` calls and `localStorage` writes. The form checks return their verdict and the marks they would show instead.
- The live `blur` checks of the login and e-mail fields in `auth.js` (lines 80-103): they only decide whether to show an error for a non-empty field, using the same two checks.
- ProductPage.AfterChange: writes numbers in plain decimal; JavaScript's exponent form for magnitudes of 10^21 and above is not modelled.
- `parseInt` is modelled for decimal and `0x` hexadecimal input, the only forms its calls here use (no radix argument).
- MainScript.GetCsrfToken: a missing `document.cookie` is given as the empty string.
- `cart.js`'s copy of the cookie reader is the same code as `main.js`'s and is covered by `MainScript.GetCsrfToken`.
- `filterProductsByPrice` in `main.js` (floating-point prices and display), `profile.js`, `contacts.js`, the views, the admin, the URL routes and the seeding script.
