# E-commerce to warehouse order transformation, in Dafny

This project models the core of an order-synchronisation adapter. The adapter
takes an order document retrieved from an e-commerce platform and turns it into
a validated fulfilment order for a warehouse management system (WMS). The model
covers three parts of `integration_service.py`:

- the **country code resolver** `get_country_code` and its table;
- the **order schema**: customer notifications, shipping address, order line
  items and the warehouse order, with the constraints and validators that run
  when one is constructed;
- the **transformer** `map_order_to_wms_payload`.

The transformer rejects a document that is absent, has no `_id` or has no items.
It skips items without a SKU, but each kept item still gets the 1-based position
of its item as `lineNumber`, so the numbering keeps gaps. It computes each line's
total, derives the `ECOM-` order number and the `CUSTOMER-` customer number, and
builds the name, address, notification flags and country code. It sets delivery
to tomorrow, upper-cases the currency and validates the whole order. It returns
the order or nothing.

Files, one module each:

- `wrappers.dfy`: `Option` and `Result`.
- `text.dfy`: `isalpha`, `upper`, `lower` and `strip`.
- `money.dfy`: rounding to cents.
- `calendar.dfy`: `datetime.date` and adding one day.
- `country_codes.dfy`: the resolver.
- `ecommerce_order.dfy`: the upstream document.
- `order_model.dfy`: the schema and its smart constructors.
- `transformer.dfy`: the transformation.

Modelling choices:

- **Upstream document.** It is a typed record. Every key it may lack is an
  `Option`, and `None` means the key is absent. An absent `contactSnapshot`
  reads as a snapshot with every key absent. An absent `items` reads as an empty
  list.
- **Prices.** Prices are exact `real`s. Python's `round(x, 2)` is
  `Money.Round2`: the nearest cent, with ties going to the even cent. A line's
  total is `Round2(unitPrice * quantity)`.
- **Validation.** The schema's construction-time validation is a set of smart
  constructors that return `Result<…, string>`. `ValidateLineItem`
  succeeds exactly when the item satisfies `OrderLineItem.IsValid`.
  `NewWarehouseOrder` succeeds exactly when the currency has three characters and
  there is at least one line item, every one valid; the order it then returns,
  with the currency upper-cased, satisfies `WarehouseOrder.IsValid`. The transformer forgets the error message and returns
  `None`, as the service does.
- **Current date and warehouse id.** `date.today()` and the configured
  `WMS_WAREHOUSE_ID` are parameters of the transformation. The delivery date is
  `Calendar.AddOneDay(today)`. It is `None` on 31 December 9999, where Python's
  `date + timedelta` raises `OverflowError`. That exception falls inside the
  transformer's `try` block, so the whole transformation returns nothing on that
  date. The model proves `AddOneDay` correct against Python's day numbering
  (`date.toordinal`).
- **The loop.** `Transformer.Transform` specifies the whole transformation as a
  function. `Transformer.MapOrderToWmsPayload` follows the service's control
  flow. It hands the item loop to `Transformer.TransformLineItems`, a `for` loop
  with `continue` that appends to a sequence. Both are proved to compute the
  specification.

What the code checks, and so what the model checks:

- The currency must have exactly three characters, and it is then upper-cased
  (`integration_service.py:83`, `:97-101`). Nothing requires the characters to
  be letters, so a currency such as `"1$é"` is accepted.
- `totalValue` has no constraint (`integration_service.py:82`). The model puts
  none on it either.
- Every failure the code reports returns `None`
  (`integration_service.py:232-243`, `:266-268`, `:308-310`). The model returns
  `None` in the same cases and does not tell the reasons apart. Three failures
  come before the `try` at `integration_service.py:271` and raise out of the
  function instead: a `contactSnapshot` set to `null` (`:238`), an item whose
  `price` is `null` (`:248`), and a `qty` or `amount` that is not a number
  (`:253-254`). The model has none of these inputs; see `## Left out`.
- A document whose contact snapshot has no `id` gets the customer number
  `"CUSTOMER-None"`. This is how Python's f-string renders `None`
  (`integration_service.py:238`, `:282`). The model renders it the same way
  (`Transformer.Render`).

## Model

| member | source | states |
|---|---|---|
| `CountryCodes.GetCountryCode` | integration_service.py:24-37 | the result is always two capital letters (in the ASCII model, see `## Left out`); an absent or empty name gives `"US"`; a two-letter alphabetic name is returned upper-cased; any other name gives the table entry for its lower-cased form, or `"US"` when the table has no entry |
| `CountryCodes.GetCountryCodeIgnoresCase` | integration_service.py:35-37 | a name resolves to the same code whether it is written upper-cased, lower-cased or as given |
| `CountryCodes.TableNamesResolve` | integration_service.py:24-29 | every name of the table, as written or upper-cased, resolves to its own table entry (so no table name is caught by the two-letter rule) |
| `CountryCodes.GetCountryCodeExamples` | integration_service.py:31-37 | `"Sweden"` and `"sweden"` give `"SE"`, `"xx"` gives `"XX"`, an absent name gives `"US"`, and `"Atlantis"` gives `"US"` |
| `Text.Upper` | integration_service.py:36 | upper-casing keeps the length, replaces every lower-case letter by its own capital (32 code points lower), and changes no other character |
| `Text.Lower` | integration_service.py:37 | lower-casing keeps the length, replaces every capital by its own lower-case letter (32 code points higher), and changes no other character |
| `Text.UpperIdempotent` | integration_service.py:97-101 | upper-casing an already upper-cased currency (which the schema validator does) changes nothing |
| `Text.LowerIdempotent` | integration_service.py:37 | lower-casing twice is lower-casing once |
| `Text.LowerOfUpper` | integration_service.py:37 | lower-casing an upper-cased name gives the lower-cased name: the table lookup does not see the input's case |
| `Text.UpperOfLower` | integration_service.py:36 | upper-casing a lower-cased code gives the upper-cased code |
| `Text.StripStart` | integration_service.py:283 | the leading-whitespace strip returns a suffix of its input; everything it removed is whitespace, and what is left does not start with whitespace |
| `Text.StripEnd` | integration_service.py:283 | the trailing-whitespace strip returns a prefix of its input; everything it removed is whitespace, and what is left does not end with whitespace |
| `Text.StripIsTrimmedSlice` | integration_service.py:283 | `strip` returns the slice of its input between the leading and the trailing whitespace: everything before the slice and everything after it is whitespace |
| `Text.StripKeepsTrimmed` | integration_service.py:283 | a string with no whitespace at either end is unchanged by `strip` |
| `Text.IsAlpha` | integration_service.py:35 | defines `str.isalpha` (no contract of its own): a non-empty string made only of ASCII letters |
| `Text.IsSpace` | integration_service.py:283 | defines the characters `str.isspace` accepts (no contract of its own), which `strip` removes |
| `Text.Strip` | integration_service.py:283 | `strip` returns a string no longer than its input that neither starts nor ends with whitespace |
| `Money.RoundHalfEven` | integration_service.py:255 | the rounded integer is within one half of its argument, a tie goes to the even integer, and a whole number is unchanged |
| `Money.RoundHalfEvenIsNearest` | integration_service.py:255 | no integer is nearer to the argument than the rounded one |
| `Money.Round2` | integration_service.py:255 | rounding to two decimals gives a whole number of cents within half a cent of the input; it is non-negative for a non-negative input, it leaves an amount that is already in whole cents unchanged, and on a tie (exactly half a cent away) it gives the even cent |
| `Money.Round2IsNearestCent` | integration_service.py:255 | no whole number of cents is nearer to the input than the rounded amount |
| `Calendar.AddOneDay` | integration_service.py:277 | tomorrow is a valid date whose day number (as `date.toordinal` counts) is today's plus one; there is no tomorrow exactly when today is 31 December 9999 |
| `Calendar.ToOrdinal` | integration_service.py:277 | defines `date.toordinal` (no contract of its own): the days of the years before, the days of the months before, and the day of the month |
| `Calendar.OrdinalInjective` | integration_service.py:277 | two valid dates with the same day number are the same date, so the day after is determined uniquely |
| `Calendar.YearStep` | integration_service.py:277 | the day count of each year is the gap between consecutive New Year's days of Python's day numbering (leap years: divisible by 4, not by 100 unless by 400) |
| `OrderModel.OrderLineItem.IsValid` | integration_service.py:61-74 | defines a valid line item (no contract of its own): a positive quantity, non-negative unit and total prices, and a total within 0.01 of quantity times unit price |
| `OrderModel.WarehouseOrder.IsValid` | integration_service.py:83-101 | defines a valid warehouse order (no contract of its own): a three-character currency that upper-casing leaves unchanged, and at least one line item, every one valid |
| `OrderModel.ValidateLineItem` | integration_service.py:57-74 | a line item is accepted, unchanged, exactly when its quantity is positive, both prices are non-negative and its total is within 0.01 of quantity times unit price; otherwise the error names the first broken constraint in field order: the quantity, then the unit price, then the total price, then the total's tolerance |
| `OrderModel.ValidateLineItems` | integration_service.py:85 | a list of line items is accepted, unchanged, exactly when every line item in it is valid |
| `OrderModel.NewWarehouseOrder` | integration_service.py:76-101 | constructing an order succeeds exactly when the currency has three characters and there is at least one line item, every one valid; a currency of another length is reported first, then an empty line list; the order built is then valid, has the currency upper-cased, and has every other field as given |
| `Transformer.Notification` | integration_service.py:289-296 | a notification is enabled exactly when its contact value is present and non-empty, and it carries that value as it came |
| `Transformer.FullNameOfParts` | integration_service.py:283 | for name parts without surrounding whitespace, the name is the parts that are present, joined by one space; a missing part leaves no stray space |
| `Transformer.FullName` | integration_service.py:283 | defines the customer's name (no contract of its own): the first and last name, each empty when absent, joined by a space and stripped |
| `Transformer.BuildShippingAddress` | integration_service.py:272-297 | defines the shipping address (no contract of its own): the customer number, the name, the copied address lines, the postal code and city with their defaults, the resolved country code and the two notifications |
| `Transformer.RawLineItem` | integration_service.py:253-264 | defines the line built from an item with a SKU (no contract of its own): the given line number, the SKU, the quantity (default 1), the name (default `"Unknown Product"`), the unit price (default 0) and the total `Round2(unitPrice * quantity)` |
| `Transformer.LineItemsOf` | integration_service.py:246-264 | defines the line items of a list of items (no contract of its own): items without a SKU are dropped, every other one becomes a line numbered by its 1-based position, with the defaults and the rounded total |
| `Transformer.BuildOrder` | integration_service.py:271-306 | defines the guarded part of the transformation (no contract of its own): no order when tomorrow is not representable or the order fails validation, otherwise the order built from the document's fields |
| `Transformer.Transform` | integration_service.py:220-310 | defines the transformation (no contract of its own; the lemmas below state its properties): no order for an absent document, a missing or empty `_id`, no items or no item with a SKU, otherwise `BuildOrder` of the line items |
| `Transformer.MapOrderToWmsPayload` | integration_service.py:220-310 | the service's transformation, written step by step, computes exactly the specification `Transform` for every document, date and warehouse id |
| `Transformer.TransformLineItems` | integration_service.py:246-264 | the service's item loop (skip on missing SKU, append otherwise) produces exactly the line items the specification assigns to the items |
| `Transformer.LineItemsComeFromSkuItems` | integration_service.py:247-264 | every produced line comes from an item with a non-empty SKU at 1-based position `lineNumber`, and carries that item's SKU, quantity (default 1), name (default `"Unknown Product"`), unit price (default 0) and rounded total |
| `Transformer.LineNumbersIncrease` | integration_service.py:247-258 | line numbers strictly increase along the lines, so they are unique |
| `Transformer.SkuItemsAreKept` | integration_service.py:247-264 | every item with a non-empty SKU yields a line numbered by its own position |
| `Transformer.LineNumbersArePositionsOfSkuItems` | integration_service.py:247-258 | the set of line numbers is exactly the set of 1-based positions of the items with a SKU, so skipped items leave gaps |
| `Transformer.LineItemCountIsSkuCount` | integration_service.py:247-264 | there are as many line items as items with a SKU |
| `Transformer.NoLineItemsIffNoSku` | integration_service.py:247-251 | no line item survives exactly when no item has a non-empty SKU |
| `Transformer.RawLineItemValidity` | integration_service.py:61-74 | a line built from an item passes validation exactly when its quantity is positive and its unit price non-negative: a total rounded to the cent never breaks the 0.01 tolerance |
| `Transformer.LineItemsValidity` | integration_service.py:253-264 | all produced lines are valid exactly when every item with a SKU has a positive quantity and a non-negative unit price |
| `Transformer.TransformRejectsInvalidInput` | integration_service.py:232-277 | there is no order for an absent document, a missing or empty `_id`, an absent or empty item list, items none of which has a SKU, or a current date of 31 December 9999 |
| `Transformer.TransformSucceedsIff` | integration_service.py:232-310 | the transformation yields an order exactly when the `_id` is present and non-empty, some item has a SKU, every item with a SKU has a positive quantity and a non-negative unit price, the currency (default `"USD"`) has three characters, and tomorrow is representable |
| `Transformer.TransformedOrderShape` | integration_service.py:274-306 | a produced order is valid and is the record assembled from the document's fields, its line items, tomorrow and the warehouse id |
| `Transformer.TransformedOrderHeader` | integration_service.py:275-280 | a produced order is valid; its order number is `"ECOM-"` followed by the `_id`; its delivery date is the day after today; its notes default to `"E-commerce order: "` plus the `_id`; its total value is the document's amount; its currency is the document's (default `"USD"`) upper-cased, three characters long; shipping method and priority are `"standard"` and `"normal"` |
| `Transformer.TransformedShippingAddress` | integration_service.py:281-297 | the customer number is `"CUSTOMER-"` plus the contact id; the name is the stripped first and last name; address lines are copied; postal code and city default to `"00000"` and `"Unknown City"`; the country code is the resolver's, two capital letters; each notification is enabled exactly when its contact value is present and non-empty |
| `Transformer.LineItemsDescribeItems` | integration_service.py:246-264 | for every list of items, its line items are one per item with a SKU, with strictly increasing line numbers that are the items' 1-based positions, each line its item's with the rounded total (`LinesDescribeItems`) |
| `Transformer.LinesOfTransform` | integration_service.py:246-298 | the lines of a produced order are exactly the line items the loop builds from the document's items |
| `Transformer.TransformedLineItems` | integration_service.py:246-264 | a produced order's lines describe the document's items (`LinesDescribeItems`): one line per item with a SKU; line numbers strictly increase and are the items' 1-based positions; each line carries its item's data, and its total is its unit price times its quantity, rounded to the cent |
| `Transformer.TransformDependsOnDateOnlyThroughDeliveryDate` | integration_service.py:277 | two runs on the same document with different dates (neither the last date) both succeed or both fail, and their orders differ only in the delivery date |
| `Transformer.SkippedItemLeavesGap` | integration_service.py:247-264 | items `[no SKU, {sku "A", qty 2, price 10.0}]` give the single line `lineNumber 2`, total 20.0, not renumbered to 1 |

## Left out

- Retrieval of the order (`get_ecommerce_order_details`, `integration_service.py:115-218`) is left out. It is a simulated HTTP exchange with `time.sleep` retries and identifiers made from the wall clock. The transformation takes the document as input.
- Submission (`create_warehouse_order`, `get_warehouse_auth_header`, `integration_service.py:105-113`, `:312-361`) is left out. It consists of a simulated HTTP submission (a `time.sleep` and a fixed `True`), base64 encoding of the credentials and JSON serialisation with `model_dump_json`, all of them library calls.
- Reading the configuration from the environment (`integration_service.py:11-21`) is left out. The warehouse id is a parameter.
- `main.py` is not part of this model. It holds the web routes, the random process ids, the HTTP status mapping and the health and status endpoints.
- The process id only labels `print` log lines, so it is not a parameter of the model. Logging is left out.
- `parse_delivery_date` is left out. It parses an ISO date string (`integration_service.py:89-95`), but the transformer always passes a `date`.
- The `int(…)` and `float(…)` conversions of loosely typed values are left out (`integration_service.py:253-254`). They sit outside the `try` block, so a bad value raises instead of returning `None`. The model's document has typed fields. A key that is present but set to `null` is not distinguished from an absent key: the model uses the default, but the code takes `null` as the value. So
  - a `null` `contactSnapshot` (`:238`) or item `price` (`:248`) raises before the `try`;
  - a `null` item `name`, `postalCode` or `city` fails the schema's `str` check, and the result is `None` (`:261`, `:286-287`, `:304`);
  - a `null` `currency` raises on `.upper()` inside the `try`, and the result is `None` (`:280`);
  - a `null` `notes` gives `orderNotes` = `None` (`:278`);
  - a `null` `firstName` or `lastName` is rendered as `"None"` in the name (`:283`).

  In each of these cases the model uses the default and builds an order.
- Retrieval and submission errors, and their classification into HTTP statuses, are left out. They belong to the parts above.
- `Money.Round2`: rounds exact reals, not binary floating-point numbers. The model does not capture cases where the float nearest a decimal lies on the other side of a tie: Python's `round(2.675, 2)` gives `2.67`, but the model gives `2.68`. The 0.01 tolerance check is likewise exact arithmetic here.
- `CountryCodes.GetCountryCode`: the promise that the result is always two capital letters holds for the ASCII model only. Python's `get_country_code` returns `"ÉÉ"` for `"éé"` and `"SSA"` for `"ßa"`, because both inputs have two characters and pass `isalpha`, and `upper` keeps `É` non-ASCII and turns `ß` into `SS`. The schema's `countryCode: str` (`integration_service.py:53`) accepts both. The model instead looks such names up in the table and returns `"US"`.
- `Text.Upper`: `str.upper` and `str.isalpha` are modelled on the ASCII letters only. For a two-letter name of non-ASCII letters, Python upper-cases it as a code, while the model looks it up in the table and returns `"US"`. A currency whose upper-cased form changes length (`"ß"` becomes `"SS"`) is judged by its original length in the model.
- `Text.Lower`: `str.lower` is modelled on the ASCII letters only, so a non-ASCII name that Python would lower-case into a table key is not found by the model.
- `OrderModel.ValidateLineItem`: reports only the first broken constraint, with a fixed message. The library reports every broken constraint, and its messages include the offending values.
- `OrderModel.NewWarehouseOrder`: reports only the first broken constraint, with a fixed message.
