/** The pricing catalogue a checkout is constructed with: an ordered list of
    pricing rules, each naming a SKU, a display name, a unit price (integer
    cents) and an optional special. The catalogue is read-only input. */
module Catalogue {

  datatype Option<+T> = None | Some(value: T)

  /** The descriptor of a special as the catalogue carries it: the name of the
      special function to run and its settings. The checkout never interprets
      it; it only hands it to the special step. */
  datatype Special = Special(kind: string, settings: map<string, int>)

  /** One pricing rule. `price` is in integer cents. */
  datatype Rule = Rule(sku: string, name: string, price: int, special: Option<Special>)

  /** Some rule of the catalogue carries this SKU. */
  predicate Listed(rules: seq<Rule>, sku: string) {
    exists i :: 0 <= i < |rules| && rules[i].sku == sku
  }

  /** Position of the first rule carrying `sku`, scanning from the front. */
  function FindIndex(rules: seq<Rule>, sku: string): (r: Option<nat>)
    ensures r.Some? ==> r.value < |rules| && rules[r.value].sku == sku
    ensures r.Some? ==> forall j :: 0 <= j < r.value ==> rules[j].sku != sku
    ensures r.None? ==> forall j :: 0 <= j < |rules| ==> rules[j].sku != sku
  {
    if |rules| == 0 then None
    else if rules[0].sku == sku then Some(0)
    else match FindIndex(rules[1..], sku)
      case None => None
      case Some(i) => Some(i + 1)
  }

  /** The first rule whose SKU is `sku`, or None when the catalogue has none. */
  function Find(rules: seq<Rule>, sku: string): (r: Option<Rule>)
    ensures r.Some? <==> Listed(rules, sku)
    ensures r.Some? ==> r.value.sku == sku && r.value in rules
    ensures r.Some? ==> exists i :: 0 <= i < |rules| && rules[i] == r.value
                                   && forall j :: 0 <= j < i ==> rules[j].sku != sku
  {
    match FindIndex(rules, sku)
    case None => None
    case Some(i) => Some(rules[i])
  }
}
