# Cart store of the VipCorner storefront script, in Dafny

The storefront's `script.js` keeps a shopping cart in the browser: a global
array `cart` of line items (id, title, price, image, quantity) that
`addToCart` and `handleCartAction` change in place, that `saveCart` copies
into local storage, whose totals feed the cart counter, the cart page
subtotal and the checkout order, and that a successful checkout empties.
Prices come from product cards as text such as `$12.50` and go through
`parsePrice`.

This project models that core:

- `PriceParser.dfy` — `parsePrice`: a number passes through, a string is
  stripped to its digits and dots and read as a decimal number (the exact
  value `parseFloat` would denote), anything else is 0. Proved: the stripped
  text holds only digits and dots, keeps every one of them, and is no longer
  than the input; a string without digits is worth 0; a string is never
  worth less than 0; the number is read from the longest `<digits>.<digits>`
  prefix, a text of digits alone is a whole number, and the result is NaN
  (0) exactly when the text starts with neither a digit nor a dot and a
  digit; and a label written as `$<dollars>.<cents>` parses back
  to exactly the amount it shows.
- `CartModel.dfy` — the line items and the cart's values: the counter total
  (`quantity || 1` summed), the order total (`parsePrice(price) * (quantity || 1)`
  summed), and reference definitions of adding a line (`AddLine`) and of
  the cart actions (`ApplyAction`). Proved: ids stay unique and quantities
  positive under every operation; an add increments the first item with the
  same id in place or appends one new line; each action touches only its
  target index; a decrease removes the item exactly when its counted quantity
  (`quantity || 1`) is at most 1;
  and how each operation moves the counter and the order total. Two product
  cards with the same title and price share one line: given that the
  engine's text of a price has no underscore and differs for different
  prices, their ids are equal exactly when title and price are.
- `CartStore.dfy` — the class `Cart`, whose field `items` is the global
  `cart` and whose ghost field `stored` is the local-storage snapshot.
  `AddToCart`, `HandleCartAction` and `Checkout` change the cart in place;
  the first two are proved equal to the reference definitions, and
  `Checkout` is proved to carry the order total and empty the cart on
  success; `FindById` is the
  `cart.find` search; `RenderedSubtotal` is the page's subtotal loop, proved
  equal to the checkout total.

Quantities are integers, with 0 standing for a missing or zero quantity
(both count as 1 in the script). Prices are exact reals. An empty title or
image stands for a missing one. The engine's conversion of a number to text,
which builds the `${title}_${price}` id, is a parameter of the cart
(`numberText`).

The model follows the code where a reader might expect otherwise: a number handed to `parsePrice` is returned unchanged even when it is
negative (only strings are guaranteed non-negative); a stored quantity that
is missing or 0 counts as 1 rather than being impossible; and an action on
an index with no item returns before saving, so the snapshot is not
rewritten.

## Model

| member | source | states |
|---|---|---|
| `PriceParser.StripNonNumeric` | script.js:21 | the text left by `replace(/[^\d.]/g, '')` is no longer than the input and holds only digits and dots |
| `PriceParser.StripCounts` | script.js:21 | stripping keeps each digit and dot as many times as it occurs and drops every other character |
| `PriceParser.StripIdempotent` | script.js:21 | stripping an already stripped text changes nothing |
| `PriceParser.StripConcat` | script.js:21 | stripping a concatenation is the concatenation of the stripped parts (the filter works character by character) |
| `PriceParser.ParseDecimal` | script.js:21-22 | `parseFloat` of a digits-and-dots text is never negative, always succeeds when the text starts with a digit, and is NaN (None) when it holds no digit |
| `PriceParser.ParseDecimalNotation` | script.js:21 | `parseFloat` of `<digits>.<digits>`, with at least one digit on either side of the dot (`12.50`, `12.`, `.50`), is the whole part plus the fraction, exactly |
| `PriceParser.FractionBelowOne` | script.js:21 | the digits after a decimal point are worth less than 1 |
| `PriceParser.LeadingDotBelowOne` | script.js:21 | a text that starts with a dot and digits, as `Tk. 500` strips to, reads as its fraction alone, a number below 1 |
| `PriceParser.ParseDecimalWhole` | script.js:21 | `parseFloat` of a text of digits alone, such as the `1299` left of `$1,299`, is the whole number they write |
| `PriceParser.ParseDecimalPrefix` | script.js:21 | `parseFloat` reads the longest `<digits>.<digits>` prefix and ignores a further dot and what follows it (`1.2.3` reads as `1.2`) |
| `PriceParser.ParseDecimalNoneIff` | script.js:21-22 | `parseFloat` is NaN exactly when the text neither starts with a digit nor with a dot followed by a digit (`..5` is NaN, `.500` is not) |
| `PriceParser.ParsePrice` | script.js:18-25 | a number is returned unchanged, a value that is neither number nor string gives 0, a string gives a non-negative amount, and a string without digits gives 0 |
| `PriceParser.ParsePriceOfLabel` | script.js:18-25 | a price label `$<dollars>.<two digits>` parses to exactly the amount in cents divided by 100 |
| `PriceParser.ParsePriceExamples` | script.js:18-25 | `"$12.50"` gives 12.5, the number 9.99 gives 9.99, a value that is neither number nor string gives 0, and `"abc"` gives 0 |
| `PriceParser.NoNumberExamples` | script.js:21-22 | `"."` and `"..5"` hold no number `parseFloat` can read and give 0 |
| `PriceParser.ThousandsExamples` | script.js:21-22 | thousands commas are dropped: `"$1,299.00"` and `"$1,299"` both give 1299 |
| `PriceParser.DotExamples` | script.js:21-22 | reading stops at a second dot (`"1.2.3"` gives 1.2), and a currency word's dot starts the number (`"Tk. 500"` gives 0.5) |
| `CartModel.TotalQuantityConcat` | script.js:12 | the counter total of two lists joined is the sum of their totals |
| `CartModel.OrderTotalConcat` | script.js:271 | the order total of two lists joined is the sum of their totals |
| `CartModel.TotalsOfUpdate` | script.js:12 | replacing one line moves each total by the difference between the old and the new line |
| `CartModel.TotalsOfRemoval` | script.js:12 | deleting one line takes its quantity off the counter and its line total off the order total |
| `CartModel.CounterShownIffNonEmpty` | script.js:12-14 | with no negative quantity (a missing or 0 one counts as 1) the counter is shown exactly when the cart has at least one line |
| `CartModel.TotalQuantityAtLeastLength` | script.js:12 | with no negative quantity the counter total is at least the number of lines |
| `CartModel.TotalsExample` | script.js:124-130 | lines 10 x 2 and 5 x 1 give a subtotal of 25 and a counter of 3 |
| `CartModel.FirstWithId` | script.js:40 | whenever some item has an id, `find` has a first such item to stop at |
| `CartModel.AddLineAtFirstMatch` | script.js:39-43 | when an item has the product's id, adding increments the first such item (`(quantity \|\| 1) + 1`) in place and changes nothing else |
| `CartModel.AddLineWithoutMatch` | script.js:44-52 | when no item has the product's id, adding appends the new line at the end |
| `CartModel.AddExisting` | script.js:39-43 | an add on an existing id keeps the length, raises that item's quantity by exactly 1, keeps its other fields, and leaves every other item equal |
| `CartModel.AddNew` | script.js:44-52 | an add on a new id lengthens the cart by one, keeps all earlier items, and puts the new line last |
| `CartModel.AddLinePreservesWellFormed` | script.js:39-52 | adding keeps ids unique and quantities at least 1 |
| `CartModel.AddLineTotalQuantity` | script.js:39-52 | with no negative quantity in the cart, adding raises the counter total by exactly 1 |
| `CartModel.AddNewOrderTotal` | script.js:44-52 | appending a new line raises the order total by its unit price |
| `CartModel.AddExistingOrderTotal` | script.js:39-43 | incrementing the matched item, whose quantity may be missing or 0, raises the order total by that item's unit price |
| `CartModel.AddTwiceMerges` | script.js:39-52 | the same product added twice gives one new line with quantity 2, not two lines |
| `CartModel.ItemIdsEqualIff` | script.js:39 | when neither price's text holds an underscore and different prices are written differently, two ids `title_price` are equal exactly when titles and prices are |
| `CartModel.RemoveAtShifts` | script.js:182 | `splice(index, 1)` shortens the cart by one, keeps earlier items and moves later ones down by one |
| `CartModel.StepChangesOnlyTarget` | script.js:177-181 | increase and a decrease that leaves the item in place change only the quantity of the item at `index`, by +1 and -1 from `quantity \|\| 1` |
| `CartModel.DecreaseRemovesIff` | script.js:179-183 | a decrease shortens the cart exactly when the item's quantity (missing counts as 1) is at most 1, and then equals a remove |
| `CartModel.UnknownActionChangesNothing` | script.js:177-186 | an action string other than increase, decrease or remove leaves the cart as it is |
| `CartModel.ActionPreservesWellFormed` | script.js:173-186 | every action keeps ids unique and quantities at least 1 |
| `CartModel.IncreaseTotals` | script.js:177-178 | when the item's quantity is not negative, increase adds 1 to the counter and one unit price to the order total |
| `CartModel.DecreaseTotals` | script.js:179-183 | when the item's quantity is not negative, decrease takes 1 off the counter and one unit price off the order total, whether the item stays or goes |
| `CartModel.RemoveTotals` | script.js:184-185 | remove takes the item's quantity off the counter and its line total off the order total |
| `CartStore.FindById` | script.js:40 | the search returns the first position holding the id, and nothing exactly when no item has it |
| `CartStore.Cart.constructor` | script.js:3 | the cart starts as the stored snapshot, or empty when nothing is stored |
| `CartStore.Cart.SaveCart` | script.js:5-7 | the snapshot becomes a copy of the cart |
| `CartStore.Cart.AddToCart` | script.js:27-55 | an invalid product, title, image or price returns nothing and changes neither cart nor snapshot; otherwise the cart becomes `AddLine` of the new line, is saved, the line holding the product is returned, and the invariant is kept |
| `CartStore.Cart.HandleCartAction` | script.js:173-188 | an index with no item changes nothing; otherwise the cart becomes `ApplyAction` of the action, is saved, and the invariant is kept |
| `CartStore.Cart.RenderedSubtotal` | script.js:117-130 | the page's loop gives no subtotal for an empty cart and otherwise exactly the checkout order total |
| `CartStore.Cart.Checkout` | script.js:263-279 | the order carries the order total; an accepted order empties and saves the cart and hides the counter, a failed one changes nothing |

## Left out

- Network calls: the add sync, the PATCH sync, the background pull that replaces the cart, and the order POST (script.js:58-81, 158-170, 192-202, 263-275) are left out; the outcome of the order request is the boolean `orderAccepted` of `Checkout`. The `itemId` argument of `handleCartAction` only feeds the PATCH request and is not modelled.
- The page: cart row markup, empty-state markup, footer toggling, the counter element, the notification and its timers, the mobile menu, the fade-in observer, alerts and navigation are user-interface side effects with no state of the cart in them.
- Event delegation and `parseInt` of `data-index` are left out; `HandleCartAction` takes the index as an integer.
- Asynchronous interleaving (a background pull finishing after later mutations) is not modelled; every operation runs to completion.
- Floating point: prices and totals are exact reals, so NaN, infinities, rounding of sums and the `toFixed(2)` display rounding are not modelled.
- `PriceParser.ParseDecimal`: models `parseFloat` only on texts of digits and dots, the only texts `parsePrice` hands it; signs, exponents, whitespace and `Infinity` never reach it.
- JSON: local storage is a ghost copy of the item list; serialisation, a corrupt stored value that `JSON.parse` rejects, and storage quota errors are not modelled.
- The engine's number-to-text conversion used in ids is the parameter `numberText`; its actual digits are not modelled.
- Line items are values in a sequence, not shared objects: the object `addToCart` returns is a copy here, which the only caller discards anyway.
- Field types: a title or image that is present but not a string, and a quantity that is not an integer, are not modelled; a missing, null or zero quantity is the value 0.
