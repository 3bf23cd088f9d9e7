/** What `total` leaves behind and what it returns: every line item carries
    its totals, items without a special are priced as scanned, and the grand
    total is the plain sum of the line prices. */
module TotalProperties {
  import opened Catalogue
  import opened Ledger
  import opened Totals
  import opened ScanProperties
  import opened PropertyOrder

  /** The sum of `f` over `keys`, first key first. */
  function SumBy(keys: seq<string>, f: string -> int): int
    decreases |keys|
  {
    if |keys| == 0 then 0 else f(keys[0]) + SumBy(keys[1..], f)
  }

  /** The line price of each key of `items`, and 0 for a missing key. */
  function PriceOfLine(items: map<string, Item>): string -> int {
    k => if k in items then LinePrice(items[k]) else 0
  }

  /** The written-back line totals sum like any function that agrees with
      them on every key. */
  lemma {:induction false} SumLinesBy(items: map<string, Item>, keys: seq<string>, f: string -> int)
    requires forall k :: k in keys ==> k in items && items[k].totalPrice == f(k)
    ensures SumLines(items, keys) == SumBy(keys, f)
    decreases |keys|
  {
    if |keys| > 0 {
      assert forall k :: k in keys[1..] ==> k in keys;
      SumLinesBy(items, keys[1..], f);
    }
  }

  /** After `total`, every line item's `totalQty` is its billable plus free
      quantity and its `totalPrice` is its unit price times its billable
      quantity, both as `getItemQty` reads them; the grand total is the sum of
      the line prices in the order `Object.keys` lists the keys. */
  lemma TotalWritesLineTotals(c: Checkout, run: SpecialFn)
    requires Good(c)
    ensures var (c', grand) := Total(c, run);
            && (forall k :: k in c'.items ==>
                  && c'.items[k].totalQty == GetItemQty(c', k, true)
                  && c'.items[k].totalPrice == c'.items[k].unitPrice * GetItemQty(c', k, false))
            && grand == SumBy(ObjectKeys(c.order), PriceOfLine(c'.items))
  {
    LineTotalsAsQuantities(c, run);
    GrandTotalByLine(c, run);
  }

  /** After `total`, every line item's totals agree with `getItemQty`. */
  lemma LineTotalsAsQuantities(c: Checkout, run: SpecialFn)
    requires Good(c)
    ensures var c' := Total(c, run).0;
            forall k :: k in c'.items ==>
              && c'.items[k].totalQty == GetItemQty(c', k, true)
              && c'.items[k].totalPrice == c'.items[k].unitPrice * GetItemQty(c', k, false)
  {
    var c' := Total(c, run).0;
    forall k | k in c'.items
      ensures c'.items[k] == Settle(Find(c.rules, k).value, c.items[k], run)
    {
      assert k in c.items;
    }
  }

  /** The grand total is the sum of the line prices `total` writes back, in
      the order `Object.keys` lists the keys. */
  lemma GrandTotalByLine(c: Checkout, run: SpecialFn)
    requires Good(c)
    ensures var (c', grand) := Total(c, run);
            grand == SumBy(ObjectKeys(c.order), PriceOfLine(c'.items))
  {
    var (c', grand) := Total(c, run);
    var ks := ObjectKeys(c.order);
    var price := PriceOfLine(c'.items);
    forall k | k in ks
      ensures k in c'.items && c'.items[k].totalPrice == price(k)
    {
      assert k in c.order;
    }
    SumLinesBy(c'.items, ks, price);
  }

  /** An item whose catalogue rule has no special keeps its name, quantities
      and unit price through `total`, and is billed unit price times scanned
      quantity. */
  lemma TotalWithoutSpecialKeepsItem(c: Checkout, run: SpecialFn, k: string)
    requires Good(c)
    requires k in c.items
    requires Find(c.rules, k).value.special.None?
    ensures var c' := Total(c, run).0;
            && k in c'.items
            && c'.items[k].name == c.items[k].name
            && c'.items[k].qty == c.items[k].qty
            && c'.items[k].freeQty == c.items[k].freeQty
            && c'.items[k].unitPrice == c.items[k].unitPrice
            && c'.items[k].totalQty == c.items[k].qty + c.items[k].freeQty
            && c'.items[k].totalPrice == c.items[k].unitPrice * c.items[k].qty
  {
  }

  /** With no special on any line item, the grand total is the sum over the
      keys of unit price times quantity as the ledger held them before
      `total`. */
  lemma TotalWithoutSpecials(c: Checkout, run: SpecialFn)
    requires Good(c)
    requires forall k :: k in c.items ==> Find(c.rules, k).value.special.None?
    ensures Total(c, run).1 ==
            SumBy(ObjectKeys(c.order), k => if k in c.items then c.items[k].unitPrice * c.items[k].qty else 0)
  {
    var c' := Total(c, run).0;
    SumLinesBy(c'.items, ObjectKeys(c.order),
               k => if k in c.items then c.items[k].unitPrice * c.items[k].qty else 0);
  }

  /** End to end: scanning `skus` into a fresh checkout whose scanned SKUs
      carry no special and then totalling bills every scanned catalogue SKU at
      its catalogue price times the number of its scans. */
  lemma BillForScans(rules: seq<Rule>, skus: seq<string>, run: SpecialFn)
    requires forall k :: k in skus && Listed(rules, k) ==> Find(rules, k).value.special.None?
    ensures var c := ScanAll(New(rules), skus);
            Total(c, run).1 ==
            SumBy(ObjectKeys(c.order), k => if Listed(rules, k) then Find(rules, k).value.price * Count(skus, k) else 0)
  {
    var c := ScanAll(New(rules), skus);
    forall k | k in c.items
      ensures k in skus && Listed(rules, k)
      ensures c.items[k].unitPrice * c.items[k].qty == Find(rules, k).value.price * Count(skus, k)
    {
      ScanFromEmpty(rules, skus, k);
    }
    var c' := Total(c, run).0;
    SumLinesBy(c'.items, ObjectKeys(c.order),
               k => if Listed(rules, k) then Find(rules, k).value.price * Count(skus, k) else 0);
  }
}
