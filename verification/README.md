# Storefront cart and forms — a Dafny model

This project models the pure core of the storefront page script `scripts.js`. It covers
the shopping cart held in persistent storage under `cart`: add-or-increment by item id,
clear, the process-order guard, and the running total the cart dialog renders. It also
covers the custom-package builder: price tables, the session draft `customBuild`, and the
cart line made from a saved draft. Last come the two forms, which validate their input
and then append to the `subscribers` and `messages` lists.

Both key-value stores are modelled as one record of typed fields (`Storefront.Store`).
Each click or submit handler is a pure function from the store and its inputs to the new
store and the alert shown (`Storefront.Reply`). Form values, the confirmation answer and
clock readings are parameters. The ISO timestamp is an opaque string and `Date.now()` is
a natural number of milliseconds.

Modules:

- `Wrappers`: `Option`.
- `Text`: JavaScript white space, `trim`, and `String(n)` for natural numbers below 10^21
  with its digit reading.
- `Money`: cart money in cents, with NaN as its own value. It also holds `Number(...)` on
  price strings and the `toFixed(2)` rendering.
- `EmailPattern`: the regular expression `^\S+@\S+\.\S+$`, stated literally and decided
  by a left-to-right automaton. A proof shows the two agree.
- `Cart`: cart lines, add-or-increment, total, and the rendered dialog contents.
- `CustomBuilder`: the draft, the two price tables, and the build's cart line.
- `Storefront`: the store record, the handlers, and the store invariant all handlers keep.

Two behaviours of the script worth noting:

- Processing an order only records `lastOrderTimestamp` and leaves the cart as it was
  (scripts.js:94-100).
- The subscriber and message lists are read without a guard against malformed stored
  JSON (scripts.js:132, scripts.js:155). So on those two keys a malformed value is not
  treated like an absent one. Stored values are typed here, so this path is outside the
  model (see below).

## Model

| member | source | states |
|---|---|---|
| `Text.Trim` | scripts.js:125 | `trim` leaves no white space at either end, and its result is empty exactly when the input is all white space (the emptiness tests of both forms rely on this) |
| `Text.TrimIsCore` | scripts.js:146-148 | the trimmed text is exactly the stretch between the leading and trailing white-space margins, nothing more and nothing less |
| `Text.TrimIdempotent` | scripts.js:125 | trimming an already trimmed value changes nothing, so stored emails and message fields are their own trimmed form |
| `Text.DecimalString` | scripts.js:197 | `String(n)` is a non-empty run of decimal digits with no leading zero other than the single digit `0` |
| `Text.DecimalRoundTrip` | scripts.js:197 | the digits of `String(n)` read back as `n` |
| `Text.DecimalInjective` | scripts.js:197 | different numbers give different decimal strings |
| `Money.PriceOf` | scripts.js:54 | `Number` of a non-empty run of decimal digits is that many whole units |
| `Money.PriceOfTrimmed` | scripts.js:54 | `Number` of a price ignores white space at both ends: the value of the text is the value of its trimmed text |
| `Money.PriceOfDecimal` | scripts.js:197 | a price written as `String(n)` reads back through `Number` as exactly `n` whole units |
| `Money.PriceOfFormatted` | scripts.js:57 | the two-decimal text `toFixed(2)` writes for an amount reads back as the same number of cents |
| `Money.PriceOfBlank` | scripts.js:54 | a blank price counts as 0, as `Number("")` does |
| `Money.PriceOfNonNumeric` | scripts.js:54 | in this model, a price whose trimmed text holds a character other than a digit or a point is NaN |
| `Money.AmountTextReadsBack` | scripts.js:57-62 | the money text shown for any amount, a NaN total included, is `$` followed by text that `Number` reads back as the same amount |
| `Money.TimesSucc` | scripts.js:54 | one more unit adds the unit amount once more, with NaN absorbing |
| `EmailPattern.IsEmailMatchesPattern` | scripts.js:127 | the automaton accepts a text exactly when it splits as `a@b.c` with `a`, `b`, `c` non-empty runs of non-space characters, i.e. exactly when `^\S+@\S+\.\S+$` matches |
| `EmailPattern.RunDecidesRest` | scripts.js:127 | from every automaton state, acceptance coincides with the rest of the input completing the pattern |
| `EmailPattern.EmailIsLongEnough` | scripts.js:127 | every accepted email has at least five characters, so the separate `!email` test never rejects an email the pattern accepts |
| `EmailPattern.EmailRefusals` | scripts.js:127 | "foo" and "foo@bar" are rejected |
| `EmailPattern.EmailSpaceRefused` | scripts.js:127 | "a b@c.de" is rejected for its inner space |
| `EmailPattern.EmailAcceptance` | scripts.js:127 | "a@b.co" is accepted |
| `Cart.QtyOrOne` | scripts.js:54 | the quantity the script uses (qty-or-1: the stored quantity, or 1 when it is missing or zero) is at least 1, equals a positive stored quantity, and is 1 when the stored quantity is missing or zero |
| `Cart.FindIndex` | scripts.js:112 | `find` by id returns the first line with that id, and returns nothing exactly when no line has it |
| `Cart.AddItem` | scripts.js:108-115 | adding a present id keeps the length, gives that line (qty-or-1) + 1 with id, name and price kept, and leaves every other line equal. Adding an absent id appends `{id, name, price, qty: 1}` after the unchanged lines. The id set grows by exactly `id`, and unique ids with positive quantities are preserved |
| `Cart.LineAmount` | scripts.js:54 | a line's amount is NaN exactly when its price text is not a number, and a line with quantity missing or 1 contributes exactly its unit price |
| `Cart.CartTotal` | scripts.js:52-54 | the total is a number exactly when every line's price reads as a number |
| `Cart.LineWithinTotal` | scripts.js:52-54 | when the total is a number, every line's amount is a number no larger than the total |
| `Cart.TotalAppend` | scripts.js:52-54 | the total of two carts laid end to end is the sum of their totals |
| `Cart.TotalIsNaN` | scripts.js:54 | the total is NaN exactly when some line's price is not a number |
| `Cart.BumpedLine` | scripts.js:113 | a line with one more unit contributes its unit price once more |
| `Cart.TotalReplace` | scripts.js:52-54 | replacing one line changes the total by exactly that line's contribution |
| `Cart.AddExistingTotal` | scripts.js:112-113 | re-adding an item already in the cart raises the total by that line's unit price |
| `Cart.AddNewTotal` | scripts.js:114 | adding a new item raises the total by the price on the button |
| `Cart.TotalStep` | scripts.js:53-54 | the total of a prefix extended by its next line adds that line's amount, so a line appended at the end adds its amount to the total |
| `Cart.RowsAndTotal` | scripts.js:52-59 | the `forEach` yields one row per cart line in order, each with the line's name, qty-or-1, amount and money text, and the running total it accumulates from 0 equals the cart total |
| `Cart.RenderCart` | scripts.js:43-66 | an empty cart renders exactly the "Your cart is empty." placeholder. Otherwise there is one row per line in cart order, with name, qty-or-1, `price × qty-or-1` and that amount's `$` money text, and the accumulated total line equals the cart total, shown as its `$` money text |
| `CustomBuilder.Lookup` | scripts.js:182 | `table[key] \|\| 0`: an unlisted key counts as 0, and a listed positive price is taken as it is |
| `CustomBuilder.BuildPrice` | scripts.js:180-182 | the build price is at most 58. It is 0 exactly when neither option is in its table, and 58 exactly for large + palm |
| `CustomBuilder.BuildPriceExamples` | scripts.js:180-182 | medium + fern costs 35, small + succulent 23; an unknown plant or size adds 0 |
| `CustomBuilder.BuildItemIdInjective` | scripts.js:197 | build lines added at different milliseconds get different ids |
| `CustomBuilder.BuildItem` | scripts.js:197 | the build's cart line has id `custom_build_<millis>`, name `Custom Package (<size>, <plantType>)` and quantity 1. Its price text is `String(price)`, which reads back through `Number` as the build price, which is also its line amount |
| `Storefront.ClearCart` | scripts.js:84-89 | a confirmed clear empties the cart and nothing else, and an unconfirmed one changes nothing |
| `Storefront.ProcessOrder` | scripts.js:93-101 | the cart is never changed. An empty cart aborts with no store change. Otherwise only `lastOrderTimestamp` is set |
| `Storefront.AddToCart` | scripts.js:107-116 | the cart becomes the add-or-increment result for the clicked id, name and price, so a repeat click bumps that line's quantity. Only the cart changes. Its id set grows by exactly the clicked id, well-formedness is kept, and the alert names the item |
| `Storefront.Subscribe` | scripts.js:123-137 | accepted exactly when the trimmed email matches `^\S+@\S+\.\S+$`. On rejection nothing is written. On acceptance exactly one `{email: trimmed, at}` record is appended after the existing ones, and nothing else changes |
| `Storefront.Contact` | scripts.js:144-160 | rejected exactly when the name, phone or message is all white space, and then nothing is written. Otherwise exactly one record with the trimmed fields and the raw `wantsCustom` is appended |
| `Storefront.SaveBuild` | scripts.js:176-185 | the draft is replaced by the chosen size, plant and notes, priced as the sum of the two table entries; nothing else changes |
| `Storefront.AddBuildToCart` | scripts.js:190-199 | without a saved draft naming both a size and a plant type nothing changes. Otherwise exactly one build line is appended without id merging. If its id is fresh, a well-formed cart stays well-formed |
| `Storefront.Handle` | scripts.js:83-200 | each user action touches only its own stored key: the cart only on clear, add and add-build; subscribers only on subscribe; messages only on contact; the draft only on save-build; the order timestamp only on process |
| `Storefront.SubscribeKeepsConsistent` | scripts.js:125-134 | after a subscription every stored email is trimmed and matches the pattern |
| `Storefront.ContactKeepsConsistent` | scripts.js:146-157 | after a contact submission every stored message has trimmed, non-empty name, phone and message |
| `Storefront.HandleKeepsConsistent` | scripts.js:83-200 | every handler keeps the store invariant when a build line's id is fresh. The invariant is: unique ids and positive quantities in the cart, valid trimmed emails, filled messages, and a draft priced from its own options |
| `Storefront.RunKeepsConsistent` | scripts.js:83-200 | any sequence of user actions from a consistent store, with fresh build ids along the way, ends in a consistent store |
| `Storefront.EmptyStoreConsistent` | scripts.js:31-37 | the empty stores of a first visit satisfy the invariant |
| `Storefront.MediumFernExample` | scripts.js:180-198 | saving medium + fern gives price 35. Adding it to an empty cart gives one line "Custom Package (medium, fern)" with price "35" and quantity 1, and a total of 35.00 |
| `Storefront.SubscribeRefuses` | scripts.js:127-131 | an email whose trimmed text the pattern rejects leaves the store unchanged |
| `Storefront.SubscribeAccepts` | scripts.js:132-134 | an email whose trimmed text the pattern accepts is appended in its trimmed form, after the existing records |
| `Storefront.SubscribeRefusesFoo` | scripts.js:127-131 | "foo" is refused and writes nothing |
| `Storefront.SubscribeRefusesFooAtBar` | scripts.js:127-131 | "foo@bar" is refused and writes nothing |
| `Storefront.SubscribeAcceptanceExample` | scripts.js:132-134 | "a@b.co" is appended with its timestamp |

## Left out

- DOM querying, event wiring and `innerHTML` building (scripts.js:2-3, scripts.js:106-107).
  These are browser plumbing. The rendered dialog is modelled as structured rows, not HTML.
- The `announce` live-region helper and its one-second `setTimeout` hide (scripts.js:5-11).
  This is timer-driven UI.
- The navigation toggle (scripts.js:13-21) and opening and closing the cart dialog
  (scripts.js:68-81). These are DOM state only.
- `alert` and `confirm` dialogs. Alerts become `Storefront.Notice` values, whose doc
  comment lists the texts shown, and the confirmation answer is a boolean input. Form `reset()` calls are UI.
- JSON parsing and serialising, and the malformed-JSON fallbacks (scripts.js:32-36,
  scripts.js:166-170). Stored values are typed and an absent key is the empty value. The
  uncaught parse errors at scripts.js:132 and scripts.js:155 are therefore not modelled.
- Real clocks: `new Date().toISOString()` is an opaque string parameter and `Date.now()`
  a natural-number parameter.
- Multi-tab storage races: the model is sequential.
- Money.PriceOf: reads only blank text, or decimal digits with at most one point and at
  most two digits after it. Signs, exponents, hexadecimal, `Infinity` and three or more
  fraction digits read as NaN here, though `Number` gives a number for them. The model
  assumes button prices are plain decimals with at most two fraction digits.
- Money.PriceOfNonNumeric: JavaScript's `Number` reads some such texts as numbers, for
  example `"1e2"` as 100 and `"-5"` as -5. The lemma is about this model's reading, which
  takes them as NaN (see Money.PriceOf above).
- Text.DecimalString: equals `String(n)` only for `n` below 10^21. From there on
  JavaScript writes exponent notation, which is not modelled; build prices are at most 58.
- Money.Plus: money is exact integer cents, so the rounding of floating-point sums and
  products is not modelled.
- Money.FormatCents: the rounding `toFixed(2)` applies to a float is not modelled. The
  amounts are exact cents, so there is nothing to round.
- Cart.CartItem: quantities are natural numbers or absent. Negative, fractional or
  non-numeric stored quantities cannot be represented. A missing `data-price` attribute
  (`undefined`) is not modelled; the price is always a string.
- CustomBuilder.Lookup: keys inherited from `Object.prototype` (such as `constructor`) are
  not modelled. In the script they would yield a non-number. The model assumes the size
  and plant-type values are plain option names, never such inherited keys.
- CustomBuilder.CustomBuild: the stored draft is typed. A draft whose `size` or
  `plantType` is missing is the empty string, and its price is a natural number.
