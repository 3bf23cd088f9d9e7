# Checkout ledger and totals

A Dafny model of the `Checkout` class of a point-of-sale pricing kata. A
checkout is built over a catalogue of pricing rules. Each rule has a SKU, a
name, a unit price and an optional special. The checkout keeps a map from
SKU to line item, filled by `scan`. `total` then walks the line items in the
order `Object.keys` lists the SKUs. That order is not simply the order in
which the keys were created: a SKU that is an array index (a canonical
decimal number from 0 to 2^32 - 2, such as "5" or "10") is listed before
every other SKU, in ascending numeric order, and only the remaining SKUs
follow in creation order (section 10.1.11.1 of ECMA-262,
OrdinaryOwnPropertyKeys). For each item it runs the item's special, if there is one,
and prices the line as unit price times billable quantity. It writes
`totalQty` and `totalPrice` back onto the item and adds the line price to a
grand total.

The model is functional. A `Checkout` value holds the catalogue, a
`map<string, Item>` of line items, and a `seq<string>` of keys in the order
they were created. `PropertyOrder.ObjectKeys` derives the `Object.keys`
order from it, and `Total` walks that. `Scan`, `AddToItems` and `Total` return new
values. Prices are integer cents, so the source's `round(…, 2)` is the
identity and the grand total is an exact sum. The special functions are a
parameter of type `SpecialFn`. It maps the special's descriptor and the line
item to new values for `qty`, `freeQty` and `unitPrice`, so a special cannot
touch any other field.

Files:
- `catalogue.dfy` (`Catalogue`): pricing rules and the first-match lookup.
- `ledger.dfy` (`Ledger`): line items, the checkout, `New`, `AddToItems`,
  `Scan`, `ScanAll` and `GetItemQty`, with the invariant `Good`. `Good` says
  the creation order records every key once and no other string, and every key is a catalogue SKU.
- `property_order.dfy` (`PropertyOrder`): array-index keys and the order in
  which `Object.keys` lists an object's keys.
- `totals.dfy` (`Totals`): the special step, the per-item settling, and `Total`.
- `scan_properties.dfy` (`ScanProperties`): what a sequence of scans leaves in
  the ledger.
- `total_properties.dfy` (`TotalProperties`): what `total` leaves behind and
  returns.

## Model

| member | source | states |
|---|---|---|
| Catalogue.FindIndex | src/checkout.js:51 | the lookup finds the first rule whose SKU matches, and reports none exactly when no rule matches |
| Catalogue.Find | src/checkout.js:51 | a rule is found exactly when the catalogue lists the SKU; the rule found carries that SKU and no earlier rule does |
| Ledger.New | src/checkout.js:11-22 | a new checkout keeps its catalogue, has no line items, and satisfies the ledger invariant |
| Ledger.AddToItems | src/checkout.js:49-68 | an unknown SKU gives the "No SKU found by the ID" error and changes nothing; a known SKU gives an entry with qty 1, freeQty 0, zero totals, and the name and price of its first rule; other entries are untouched; a new key is created after all existing keys and an existing key keeps its place in the creation order; the invariant is preserved |
| Ledger.Scan | src/checkout.js:31-39 | a repeat scan raises that entry's qty by exactly 1 and changes nothing else; a first scan of a catalogue SKU adds a fresh entry whose key is created last; an unknown SKU leaves the checkout unchanged; other entries are untouched; the invariant is preserved |
| Ledger.ScanAll | src/checkout.js:31-39 | any sequence of scans keeps the catalogue and preserves the invariant, so every key stays a catalogue SKU |
| Ledger.GetItemQty | src/checkout.js:77-81 | without the flag it returns qty, with it qty plus freeQty; the SKU must be present, since the source dereferences the missing entry |
| Totals.ApplySpecial | src/checkout.js:104-109 | an item whose rule has no special is unchanged; otherwise exactly qty, freeQty and unitPrice take the special's values, and name and totals stay |
| Totals.Settle | src/checkout.js:106-122 | after one step, totalQty is qty plus freeQty and totalPrice is unitPrice times qty, both after the special; without a special the quantities and price are kept |
| Totals.TotalFrom | src/checkout.js:97-123 | the loop settles each visited key against its first rule and leaves every other item alone; the accumulated total is the start value plus the sum of the written-back line totals |
| Totals.Total | src/checkout.js:93-130 | total keeps the keys, their creation order and the catalogue; settles every item; returns the sum of the line totals, taken in `Object.keys` order, with no further rounding; preserves the invariant |
| ScanProperties.ScanAllAppend | src/checkout.js:31-39 | scanning one sequence and then another equals scanning their concatenation |
| ScanProperties.UnknownScanDropped | src/checkout.js:31-57 | a scan of a SKU absent from the catalogue is dropped, and the scans after it are recorded as if it had not happened |
| ScanProperties.ScanAllEntry | src/checkout.js:31-65 | after a scan sequence, a SKU has an entry exactly when it had one or it is a scanned catalogue SKU; that entry is its starting entry with qty raised by the number of its scans |
| ScanProperties.ScanFromEmpty | src/checkout.js:21-80 | from an empty ledger, the entries are exactly the scanned catalogue SKUs; each has qty, and getItemQty with or without the flag, equal to its number of scans, plus its rule's name and price, freeQty 0 and zero totals |
| ScanProperties.ScanAllOrder | src/checkout.js:31-65 | scanning keeps the existing key creation order as a prefix and then creates exactly the newly seen catalogue SKUs, in the order of their first scan |
| ScanProperties.ScanOrderFromEmpty | src/checkout.js:31-65 | from an empty ledger, the keys are created once each for exactly the scanned catalogue SKUs, in the order of their first scan |
| ScanProperties.ScanKeysFromEmpty | src/checkout.js:31-103 | from an empty ledger, `total` visits each scanned catalogue SKU exactly once: the array-index SKUs first in ascending numeric order, then the other SKUs in the order of their first scan |
| PropertyOrder.ObjectKeys | src/checkout.js:103 | `Object.keys` lists exactly the object's keys, each once |
| PropertyOrder.ObjectKeysOrder | src/checkout.js:103 | `Object.keys` lists the array-index keys before all others, in ascending numeric order, and the other keys in their creation order |
| PropertyOrder.SortByIndex | src/checkout.js:103 | the array-index keys are rearranged, not changed or dropped, into ascending numeric order |
| PropertyOrder.ArrayIndexExamples | src/checkout.js:103 | "0", "5", "9", "10" and "4294967294" are array indices; "4294967295", "", "01", "-1" and letter SKUs are not |
| PropertyOrder.NumericKeysExample | src/checkout.js:103 | keys created as "10" then "9" are walked as "9" then "10" |
| PropertyOrder.MixedKeysExample | src/checkout.js:103 | keys created as "atv" then "5" are walked as "5" then "atv" |
| PropertyOrder.NamedKeysExample | src/checkout.js:103 | keys created as "vga" then "atv" are walked in that order |
| TotalProperties.TotalWritesLineTotals | src/checkout.js:113-122 | after total, each item's totalQty equals getItemQty with free units and its totalPrice equals unitPrice times getItemQty; the grand total is the sum of those line prices in `Object.keys` order |
| TotalProperties.LineTotalsAsQuantities | src/checkout.js:113-122 | after total, each item's totalQty equals getItemQty with free units and its totalPrice equals unitPrice times getItemQty |
| TotalProperties.GrandTotalByLine | src/checkout.js:97-129 | the grand total is the sum of the written-back line prices over the keys in `Object.keys` order |
| TotalProperties.TotalWithoutSpecialKeepsItem | src/checkout.js:104-122 | an item whose rule has no special keeps name, qty, freeQty and unitPrice through total, and is billed unitPrice times qty |
| TotalProperties.TotalWithoutSpecials | src/checkout.js:97-129 | with no special on any item, the grand total is the sum over the keys of unit price times quantity as scanned |
| TotalProperties.BillForScans | src/checkout.js:31-129 | scanning into a fresh checkout with no specials and then totalling bills each scanned catalogue SKU at its catalogue price times its number of scans |

## Left out

- `pricingBreakdown`, the `verbose` flag and the `console.warn` call: they only write to the console. The warning text is still returned as the `NotFound` error.
- The concrete special functions and the dispatch `specialFunctions[special.type]`: their module (`./specialFunctions`) is not part of this model. Specials are the abstract parameter `Totals.SpecialFn`.
- Totals.Total: a special is modelled as a function of its descriptor and its own line item that sets only `qty`, `freeQty` and `unitPrice`. In the source the special object holds the whole checkout and could change anything, so the model is narrower there.
- Totals.Total: requires the ledger invariant (keys listed once, all in the catalogue). The source would throw when destructuring a missing rule. `Scan`, `AddToItems`, `ScanAll` and `Total` all preserve the invariant, so every checkout built through them meets it.
- The `round` helper (`./helpers`, not part of this model) and JavaScript floating-point arithmetic: prices are integer cents, where rounding to two places is the identity.
- Ledger.GetItemQty: the `|| 0` fallback is not modelled. On natural-number quantities it only maps 0 to 0; it matters only for `NaN`, which does not arise here.
- Keys are modelled as strings only. Symbol keys cannot arise, because the source only ever stores SKUs given as property names.
- SKUs that collide with `Object.prototype` property names (such as `constructor`) and so look present in an empty `items` object: the model's map has no inherited keys.
- `index.js`: a demo script over a catalogue that is not part of this model. It makes no assertions.
- Idempotence of `total`: specials run again on already-adjusted items, so the source does not promise it and the model does not claim it.
