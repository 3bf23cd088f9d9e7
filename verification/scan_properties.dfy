/** What a sequence of scans leaves in the ledger: each line item's quantity
    counts the scans of its SKU, unknown SKUs leave no trace, keys are
    created in the order of their first scan, and `Object.keys` lists the
    array-index SKUs first by number and the others in first-scan order. */
module ScanProperties {
  import opened Catalogue
  import opened Ledger
  import opened PropertyOrder

  /** Number of occurrences of `x` in `s`. */
  function Count(s: seq<string>, x: string): nat
    decreases |s|
  {
    if |s| == 0 then 0 else (if s[0] == x then 1 else 0) + Count(s[1..], x)
  }

  /** The scanned quantity of a SKU: its `qty`, or 0 with no line item. */
  function QtyOf(c: Checkout, sku: string): nat {
    if sku in c.items then c.items[sku].qty else 0
  }

  /** The entry a SKU's later scans build on: the existing line item, or the
      one its first scan creates. */
  function Entry(c: Checkout, sku: string): Item
    requires sku in c.items || Listed(c.rules, sku)
  {
    if sku in c.items then c.items[sku] else NewItem(Find(c.rules, sku).value)
  }

  /** Scanning two sequences one after the other is scanning their
      concatenation. */
  lemma {:induction false} ScanAllAppend(c: Checkout, xs: seq<string>, ys: seq<string>)
    ensures ScanAll(c, xs + ys) == ScanAll(ScanAll(c, xs), ys)
    decreases |xs|
  {
    if |xs| == 0 {
      assert xs + ys == ys;
    } else {
      assert (xs + ys)[1..] == xs[1..] + ys;
      ScanAllAppend(Scan(c, xs[0]), xs[1..], ys);
    }
  }

  /** A scan of a SKU missing from the catalogue is dropped: the scans before
      and after it are recorded exactly as if it had not happened. */
  lemma UnknownScanDropped(c: Checkout, xs: seq<string>, u: string, ys: seq<string>)
    requires Good(c)
    requires !Listed(c.rules, u)
    ensures ScanAll(c, xs + [u] + ys) == ScanAll(c, xs + ys)
  {
    var mid := ScanAll(c, xs);
    ScanAllAppend(c, xs + [u], ys);
    ScanAllAppend(c, xs, [u]);
    ScanAllAppend(c, xs, ys);
    assert u !in mid.items;
    assert ScanAll(mid, [u]) == ScanAll(Scan(mid, u), []);
  }

  /** One scan of `s` creates or bumps only the entry of `s`: every other
      SKU's entry and scanned quantity stay as they were. */
  lemma ScanEntryStep(c: Checkout, s: string, k: string)
    requires Good(c)
    ensures var c1 := Scan(c, s);
            && (k in c1.items <==> k in c.items || (k == s && Listed(c.rules, k)))
            && (k in c1.items ==>
                  && QtyOf(c1, k) == QtyOf(c, k) + (if k == s then 1 else 0)
                  && c1.items[k] == Entry(c, k).(qty := QtyOf(c1, k)))
  {
  }

  /** After scanning `skus`, a SKU has a line item exactly when it had one or
      it is a catalogue SKU that was scanned, and that line item is the entry
      it started from with its quantity raised by the number of its scans. */
  lemma {:induction false} ScanAllEntry(c: Checkout, skus: seq<string>, k: string)
    requires Good(c)
    ensures var c' := ScanAll(c, skus);
            && (k in c'.items <==> k in c.items || (k in skus && Listed(c.rules, k)))
            && (k in c'.items ==>
                  c'.items[k] == Entry(c, k).(qty := QtyOf(c, k) + Count(skus, k)))
    decreases |skus|
  {
    if |skus| > 0 {
      var s := skus[0];
      var rest := skus[1..];
      var c1 := Scan(c, s);
      assert k in skus <==> k == s || k in rest by {
        assert skus == [s] + rest;
      }
      assert Count(skus, k) == (if k == s then 1 else 0) + Count(rest, k);
      ScanEntryStep(c, s, k);
      ScanAllEntry(c1, rest, k);
      if k in c1.items {
        assert Entry(c1, k) == Entry(c, k).(qty := QtyOf(c1, k));
      }
    }
  }

  /** From a fresh checkout, the ledger holds exactly the scanned catalogue
      SKUs; each entry's `qty` is the number of its scans, with the name and
      price of its first catalogue rule and no free units or totals yet. */
  lemma ScanFromEmpty(rules: seq<Rule>, skus: seq<string>, k: string)
    ensures var c := ScanAll(New(rules), skus);
            && (k in c.items <==> k in skus && Listed(rules, k))
            && (k in c.items ==>
                  && c.items[k].qty == Count(skus, k)
                  && c.items[k].name == Find(rules, k).value.name
                  && c.items[k].unitPrice == Find(rules, k).value.price
                  && c.items[k].freeQty == 0
                  && c.items[k].totalPrice == 0 && c.items[k].totalQty == 0
                  && GetItemQty(c, k, false) == Count(skus, k)
                  && GetItemQty(c, k, true) == Count(skus, k))
  {
    ScanAllEntry(New(rules), skus, k);
  }

  /** The keys of `o` after `prefix` are the catalogue SKUs of `skus` not
      already in `prefix`. */
  ghost predicate NewKeys(o: seq<string>, prefix: seq<string>, skus: seq<string>, rules: seq<Rule>)
    requires |prefix| <= |o|
  {
    forall k :: k in o[|prefix|..] <==> k in skus && Listed(rules, k) && k !in prefix
  }

  /** The keys of `o` from position `n` on appear in the order of their first
      occurrence in `skus`. */
  ghost predicate InScanOrder(o: seq<string>, n: nat, skus: seq<string>) {
    forall i, j :: n <= i < j < |o| ==> IndexOf(skus, o[i]) < IndexOf(skus, o[j])
  }

  /** `o` starts with `prefix`, followed by the catalogue SKUs of `skus` not
      already in `prefix`, in the order of their first scan. */
  ghost predicate ExtendsInScanOrder(o: seq<string>, prefix: seq<string>,
                                     skus: seq<string>, rules: seq<Rule>)
  {
    && |prefix| <= |o|
    && o[..|prefix|] == prefix
    && NewKeys(o, prefix, skus, rules)
    && InScanOrder(o, |prefix|, skus)
  }

  /** `prefix` extended by `s` exactly when `s` is a catalogue SKU it lacks. */
  function Grow(prefix: seq<string>, s: string, rules: seq<Rule>): seq<string> {
    if s !in prefix && Listed(rules, s) then prefix + [s] else prefix
  }

  /** Carries the `NewKeys` half of `ExtendsInScanOrder` back over one scan,
      for the induction in `ScanAllOrder`. */
  lemma StepNewKeys(o: seq<string>, prefix: seq<string>, s: string, rest: seq<string>,
                    rules: seq<Rule>)
    requires |Grow(prefix, s, rules)| <= |o|
    requires o[..|Grow(prefix, s, rules)|] == Grow(prefix, s, rules)
    requires NewKeys(o, Grow(prefix, s, rules), rest, rules)
    ensures NewKeys(o, prefix, [s] + rest, rules)
  {
    var grown := Grow(prefix, s, rules);
    var tail := o[|grown|..];
    if grown == prefix + [s] {
      assert o[|prefix|] == s;
      assert o[|prefix|..] == [s] + tail;
    } else {
      assert o[|prefix|..] == tail;
    }
  }

  /** A key other than `s` is first scanned in `[s] + rest` one place later
      than in `rest`. */
  lemma IndexOfCons(s: string, rest: seq<string>, x: string)
    requires x != s
    ensures IndexOf([s] + rest, x) == 1 + IndexOf(rest, x)
  {
    assert ([s] + rest)[1..] == rest;
  }

  /** Carries the `InScanOrder` half of `ExtendsInScanOrder` back over one
      scan, for the induction in `ScanAllOrder`. */
  lemma StepInScanOrder(o: seq<string>, prefix: seq<string>, s: string, rest: seq<string>,
                        rules: seq<Rule>)
    requires |Grow(prefix, s, rules)| <= |o|
    requires o[..|Grow(prefix, s, rules)|] == Grow(prefix, s, rules)
    requires NewKeys(o, Grow(prefix, s, rules), rest, rules)
    requires InScanOrder(o, |Grow(prefix, s, rules)|, rest)
    ensures InScanOrder(o, |prefix|, [s] + rest)
  {
    var grown := Grow(prefix, s, rules);
    var skus := [s] + rest;
    forall i | |grown| <= i < |o|
      ensures o[i] != s && IndexOf(skus, o[i]) == 1 + IndexOf(rest, o[i])
    {
      assert o[i] in o[|grown|..];
      if grown == prefix + [s] {
        assert s in grown;
      }
      IndexOfCons(s, rest, o[i]);
    }
    if grown == prefix + [s] {
      assert o[|prefix|] == s;
    }
  }

  /** Scanning appends the newly seen catalogue SKUs to the creation order of
      the keys, in the order in which each was first scanned. */
  lemma {:induction false} ScanAllOrder(c: Checkout, skus: seq<string>)
    requires Good(c)
    ensures ExtendsInScanOrder(ScanAll(c, skus).order, c.order, skus, c.rules)
    decreases |skus|
  {
    if |skus| == 0 {
      var o := ScanAll(c, skus).order;
      assert o[|c.order|..] == [];
    } else {
      var s := skus[0];
      var c1 := Scan(c, s);
      ScanAllOrder(c1, skus[1..]);
      var o := ScanAll(c, skus).order;
      assert s in c.items <==> s in c.order;
      assert c1.order == Grow(c.order, s, c.rules);
      assert skus == [s] + skus[1..];
      StepNewKeys(o, c.order, s, skus[1..], c.rules);
      StepInScanOrder(o, c.order, s, skus[1..], c.rules);
      assert o[..|c.order|] == o[..|c1.order|][..|c.order|];
    }
  }

  /** From a fresh checkout the creation order of the keys lists each scanned
      catalogue SKU once, in the order of its first scan. */
  lemma ScanOrderFromEmpty(rules: seq<Rule>, skus: seq<string>)
    ensures var o := ScanAll(New(rules), skus).order;
            && NoDuplicates(o)
            && (forall k :: k in o <==> k in skus && Listed(rules, k))
            && (forall i, j :: 0 <= i < j < |o| ==> IndexOf(skus, o[i]) < IndexOf(skus, o[j]))
  {
    ScanAllOrder(New(rules), skus);
    var o := ScanAll(New(rules), skus).order;
    assert o[0..] == o;
  }

  /** From a fresh checkout, the keys `total` walks are each scanned catalogue
      SKU once: first the array-index SKUs in ascending numeric order, then the
      other SKUs in the order of their first scan. */
  lemma ScanKeysFromEmpty(rules: seq<Rule>, skus: seq<string>)
    ensures var ks := ObjectKeys(ScanAll(New(rules), skus).order);
            && NoDuplicates(ks)
            && (forall k :: k in ks <==> k in skus && Listed(rules, k))
            && (forall i, j :: 0 <= i < j < |ks| && IsArrayIndex(ks[j]) ==>
                  IsArrayIndex(ks[i]) && DigitsValue(ks[i]) <= DigitsValue(ks[j]))
            && (forall i, j :: 0 <= i < j < |ks| && IsNamedKey(ks[i]) ==>
                  IndexOf(skus, ks[i]) < IndexOf(skus, ks[j]))
  {
    var o := ScanAll(New(rules), skus).order;
    var ks := ObjectKeys(o);
    ScanOrderFromEmpty(rules, skus);
    ObjectKeysOrder(o);
    forall i, j | 0 <= i < j < |ks| && IsNamedKey(ks[i])
      ensures IndexOf(skus, ks[i]) < IndexOf(skus, ks[j])
    {
      var p, q := IndexOf(o, ks[i]), IndexOf(o, ks[j]);
      assert p < q < |o| && o[p] == ks[i] && o[q] == ks[j];
    }
  }
}
