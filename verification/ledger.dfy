/** The transaction ledger of a checkout: a map from SKU to line item plus the
    creation order of its keys, and the operations that record scans. */
module Ledger {
  import opened Catalogue

  /** A line item. `qty` is the billable quantity (the scan count until a
      special changes it), `freeQty` the units a special gave away, and
      `totalPrice` / `totalQty` are written by the totalling pass. Prices are
      integer cents. */
  datatype Item = Item(name: string, qty: nat, unitPrice: int, freeQty: nat,
                       totalPrice: int, totalQty: nat)

  /** A checkout: the catalogue it prices against, its line items, and the
      order in which their keys were created. `Object.keys` lists array-index
      keys before the others, so the walk order is derived from this one (see
      `PropertyOrder.ObjectKeys`). */
  datatype Checkout = Checkout(rules: seq<Rule>, items: map<string, Item>, order: seq<string>)

  /** What adding an item reports: the SKU added, or an error message. */
  datatype AddOutcome = Added(sku: string) | NotFound(error: string)

  predicate NoDuplicates(s: seq<string>) {
    forall i, j :: 0 <= i < j < |s| ==> s[i] != s[j]
  }

  /** `order` lists exactly the keys of `items`, each once. */
  predicate Valid(c: Checkout) {
    && NoDuplicates(c.order)
    && (forall k :: k in c.order ==> k in c.items)
    && (forall k :: k in c.items ==> k in c.order)
  }

  /** Every line item belongs to a SKU of the catalogue. */
  predicate Catalogued(c: Checkout) {
    forall k :: k in c.items ==> Listed(c.rules, k)
  }

  /** The invariant every reachable checkout keeps. */
  predicate Good(c: Checkout) {
    Valid(c) && Catalogued(c)
  }

  /** A fresh checkout over the given catalogue: no line items yet. */
  function New(rules: seq<Rule>): (c: Checkout)
    ensures c.rules == rules
    ensures c.items == map[] && c.order == []
    ensures Good(c)
  {
    Checkout(rules, map[], [])
  }

  /** The line item created by the first scan of a catalogue SKU. */
  function NewItem(rule: Rule): Item {
    Item(rule.name, 1, rule.price, 0, 0, 0)
  }

  /** The error reported for a SKU the catalogue does not list. */
  function NotFoundMessage(sku: string): string {
    "No SKU found by the ID: " + sku
  }

  /** Puts a fresh line item for `sku` into the checkout, taken from the first
      catalogue rule for that SKU. An unknown SKU yields an error and leaves
      the checkout as it was. An existing entry is overwritten in place: its
      key keeps its position. */
  function AddToItems(c: Checkout, sku: string): (r: (Checkout, AddOutcome))
    ensures r.0.rules == c.rules
    ensures !Listed(c.rules, sku) ==> r.0 == c && r.1 == NotFound(NotFoundMessage(sku))
    ensures Listed(c.rules, sku) ==> r.1 == Added(sku)
    ensures Listed(c.rules, sku) ==>
              && sku in r.0.items
              && r.0.items[sku].name == Find(c.rules, sku).value.name
              && r.0.items[sku].unitPrice == Find(c.rules, sku).value.price
              && r.0.items[sku].qty == 1 && r.0.items[sku].freeQty == 0
              && r.0.items[sku].totalPrice == 0 && r.0.items[sku].totalQty == 0
    ensures forall k :: k != sku ==> (k in r.0.items <==> k in c.items)
    ensures forall k :: k != sku && k in c.items ==> r.0.items[k] == c.items[k]
    ensures Listed(c.rules, sku) && sku !in c.items ==> r.0.order == c.order + [sku]
    ensures sku in c.items ==> r.0.order == c.order
    ensures Good(c) ==> Good(r.0)
  {
    match Find(c.rules, sku)
    case None => (c, NotFound(NotFoundMessage(sku)))
    case Some(rule) =>
      var order := if sku in c.items then c.order else c.order + [sku];
      (Checkout(c.rules, c.items[sku := NewItem(rule)], order), Added(sku))
  }

  /** Records one scan: bumps the quantity of an existing line item, otherwise
      adds a new one. The outcome of adding is dropped and the checkout is
      returned either way, so an unknown SKU changes nothing. */
  function Scan(c: Checkout, sku: string): (c': Checkout)
    ensures c'.rules == c.rules
    ensures sku in c.items ==>
              && c'.order == c.order
              && sku in c'.items
              && c'.items[sku] == c.items[sku].(qty := c.items[sku].qty + 1)
    ensures sku !in c.items && Listed(c.rules, sku) ==>
              && c'.order == c.order + [sku]
              && sku in c'.items
              && c'.items[sku] == NewItem(Find(c.rules, sku).value)
    ensures !Listed(c.rules, sku) && sku !in c.items ==> c' == c
    ensures forall k :: k != sku ==> (k in c'.items <==> k in c.items)
    ensures forall k :: k != sku && k in c.items ==> c'.items[k] == c.items[k]
    ensures Good(c) ==> Good(c')
  {
    if sku in c.items then
      c.(items := c.items[sku := c.items[sku].(qty := c.items[sku].qty + 1)])
    else
      AddToItems(c, sku).0
  }

  /** Scans a sequence of SKUs one after another. */
  function ScanAll(c: Checkout, skus: seq<string>): (c': Checkout)
    ensures c'.rules == c.rules
    ensures Good(c) ==> Good(c')
    decreases |skus|
  {
    if |skus| == 0 then c else ScanAll(Scan(c, skus[0]), skus[1..])
  }

  /** The billable quantity of a line item, or billable plus free when
      `addFreeQty` is set. The SKU must have a line item. */
  function GetItemQty(c: Checkout, sku: string, addFreeQty: bool): (q: nat)
    requires sku in c.items
    ensures !addFreeQty ==> q == c.items[sku].qty
    ensures addFreeQty ==> q == c.items[sku].qty + c.items[sku].freeQty
  {
    if addFreeQty then c.items[sku].qty + c.items[sku].freeQty else c.items[sku].qty
  }
}
