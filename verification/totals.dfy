/** The totalling pass of a checkout: for every line item, in the order
    `Object.keys` lists the keys, run the item's special (if its catalogue
    rule has one), price the line as unit price times billable quantity, write
    the line totals back and add the line price to the grand total. */
module Totals {
  import opened Catalogue
  import opened Ledger
  import opened PropertyOrder

  /** What a special may change on its line item: the billable quantity, the
      free quantity and the unit price. */
  datatype Adjustment = Adjustment(qty: nat, freeQty: nat, unitPrice: int)

  /** The special functions, supplied by the caller: given the special's
      descriptor and the line item, the adjusted fields. */
  type SpecialFn = (Special, Item) -> Adjustment

  /** The line price: unit price times billable quantity. Prices are integer
      cents, so rounding to two decimal places changes nothing. */
  function LinePrice(it: Item): int {
    it.unitPrice * it.qty
  }

  /** Runs the special of `rule` on `it`, if the rule has one. */
  function ApplySpecial(rule: Rule, it: Item, run: SpecialFn): (r: Item)
    ensures r.name == it.name && r.totalPrice == it.totalPrice && r.totalQty == it.totalQty
    ensures rule.special.None? ==> r == it
    ensures rule.special.Some? ==>
              Adjustment(r.qty, r.freeQty, r.unitPrice) == run(rule.special.value, it)
  {
    match rule.special
    case None => it
    case Some(s) =>
      var a := run(s, it);
      it.(qty := a.qty, freeQty := a.freeQty, unitPrice := a.unitPrice)
  }

  /** One step of the totalling pass for one line item: the special, then the
      write-back of the line totals. */
  function Settle(rule: Rule, it: Item, run: SpecialFn): (r: Item)
    ensures r.name == it.name
    ensures r.totalQty == r.qty + r.freeQty
    ensures r.totalPrice == r.unitPrice * r.qty
    ensures rule.special.None? ==>
              r.qty == it.qty && r.freeQty == it.freeQty && r.unitPrice == it.unitPrice
    ensures rule.special.Some? ==>
              Adjustment(r.qty, r.freeQty, r.unitPrice) == run(rule.special.value, it)
  {
    var adjusted := ApplySpecial(rule, it, run);
    adjusted.(totalQty := adjusted.qty + adjusted.freeQty, totalPrice := LinePrice(adjusted))
  }

  /** The sum of the written-back line totals of `keys`, first key first. */
  function SumLines(items: map<string, Item>, keys: seq<string>): int
    requires forall k :: k in keys ==> k in items
    decreases |keys|
  {
    if |keys| == 0 then 0 else items[keys[0]].totalPrice + SumLines(items, keys[1..])
  }

  /** The totalling loop over the keys still to visit, with the grand total
      accumulated so far. Every visited key is settled against its first
      catalogue rule; every other item is left alone. */
  function TotalFrom(rules: seq<Rule>, items: map<string, Item>, keys: seq<string>,
                     run: SpecialFn, grand: int): (r: (map<string, Item>, int))
    requires NoDuplicates(keys)
    requires forall k :: k in keys ==> k in items && Listed(rules, k)
    ensures r.0.Keys == items.Keys
    ensures forall k :: k in items && k !in keys ==> r.0[k] == items[k]
    ensures forall k :: k in keys ==> r.0[k] == Settle(Find(rules, k).value, items[k], run)
    ensures r.1 == grand + SumLines(r.0, keys)
    decreases |keys|
  {
    if |keys| == 0 then (items, grand)
    else
      var k := keys[0];
      var line := Settle(Find(rules, k).value, items[k], run);
      assert forall j :: 1 <= j < |keys| ==> keys[j] != k;
      TotalFrom(rules, items[k := line], keys[1..], run, grand + line.totalPrice)
  }

  /** `total`: settles every line item, walking the keys as `Object.keys`
      lists them, and returns the updated checkout with the grand total, the
      plain sum of the line totals. */
  function Total(c: Checkout, run: SpecialFn): (r: (Checkout, int))
    requires Good(c)
    ensures r.0.rules == c.rules && r.0.order == c.order
    ensures r.0.items.Keys == c.items.Keys
    ensures forall k :: k in c.items ==>
              r.0.items[k] == Settle(Find(c.rules, k).value, c.items[k], run)
    ensures r.1 == SumLines(r.0.items, ObjectKeys(c.order))
    ensures Good(r.0)
  {
    var (items, grand) := TotalFrom(c.rules, c.items, ObjectKeys(c.order), run, 0);
    (c.(items := items), grand)
  }
}
