/** The order in which `Object.keys` lists the own keys of a plain object
    (section 10.1.11.1, OrdinaryOwnPropertyKeys, of ECMA-262): first the keys
    that are array indices, in ascending numeric order, then the other string
    keys in the order they were created. */
module PropertyOrder {
  import opened Ledger

  /** Position of the first occurrence of `x` in `s`, or |s| when absent. */
  function IndexOf(s: seq<string>, x: string): (i: nat)
    ensures i <= |s|
    ensures i < |s| ==> s[i] == x
    ensures forall j :: 0 <= j < i ==> s[j] != x
    ensures i < |s| <==> x in s
    decreases |s|
  {
    if |s| == 0 then 0 else if s[0] == x then 0 else 1 + IndexOf(s[1..], x)
  }

  predicate IsDigit(ch: char) {
    '0' <= ch <= '9'
  }

  predicate AllDigits(s: string) {
    forall i :: 0 <= i < |s| ==> IsDigit(s[i])
  }

  /** The number a string of decimal digits denotes (read on any string,
      but meaningful only on digits). */
  function DigitsValue(s: string): int
    decreases |s|
  {
    if |s| == 0 then 0
    else 10 * DigitsValue(s[..|s| - 1]) + (s[|s| - 1] as int - '0' as int)
  }

  /** The largest array index, 2^32 - 2. */
  const MaxArrayIndex: nat := 0xFFFF_FFFE

  /** A key is an array index when it is the canonical decimal form of a
      number from 0 to 2^32 - 2: digits only, no leading zero except "0"
      itself. */
  predicate IsArrayIndex(k: string) {
    && 0 < |k|
    && AllDigits(k)
    && (k[0] != '0' || |k| == 1)
    && DigitsValue(k) <= MaxArrayIndex
  }

  /** Every key that is not an array index. */
  predicate IsNamedKey(k: string) {
    !IsArrayIndex(k)
  }

  /** The elements of `s` that satisfy `keep`, in their order in `s`. */
  function Filter(s: seq<string>, keep: string -> bool): (r: seq<string>)
    ensures forall k :: k in r <==> k in s && keep(k)
    ensures NoDuplicates(s) ==> NoDuplicates(r)
    ensures NoDuplicates(s) ==>
              forall i, j :: 0 <= i < j < |r| ==> IndexOf(s, r[i]) < IndexOf(s, r[j])
    decreases |s|
  {
    if |s| == 0 then []
    else
      var rest := Filter(s[1..], keep);
      if keep(s[0]) then [s[0]] + rest else rest
  }

  predicate AllIndices(s: seq<string>) {
    forall k :: k in s ==> IsArrayIndex(k)
  }

  /** The keys of `s` are in ascending order of `rank`. */
  predicate AscendingBy(s: seq<string>, rank: string -> int) {
    forall i, j :: 0 <= i < j < |s| ==> rank(s[i]) <= rank(s[j])
  }

  /** The keys of `s` are in ascending numeric order. */
  predicate Ascending(s: seq<string>) {
    AscendingBy(s, DigitsValue)
  }

  /** A sequence with a head is ascending exactly when its tail is and the
      head ranks no higher than any key of the tail. */
  lemma AscendingCons(a: string, t: seq<string>, rank: string -> int)
    ensures AscendingBy([a] + t, rank) <==>
              (forall k :: k in t ==> rank(a) <= rank(k)) && AscendingBy(t, rank)
  {
    if (forall k :: k in t ==> rank(a) <= rank(k)) && AscendingBy(t, rank) {
      AscendingConsIntro(a, t, rank);
    }
    if AscendingBy([a] + t, rank) {
      HeadIsLeast(a, t, rank);
      TailAscending(a, t, rank);
    }
  }

  /** The "if" half of `AscendingCons`. */
  lemma AscendingConsIntro(a: string, t: seq<string>, rank: string -> int)
    requires forall k :: k in t ==> rank(a) <= rank(k)
    requires AscendingBy(t, rank)
    ensures AscendingBy([a] + t, rank)
  {
    var s := [a] + t;
    forall i, j | 0 <= i < j < |s|
      ensures rank(s[i]) <= rank(s[j])
    {
      assert s[j] == t[j - 1];
      if i == 0 {
        assert s[i] == a && t[j - 1] in t;
      } else {
        assert s[i] == t[i - 1];
      }
    }
  }

  /** The head of an ascending sequence ranks no higher than any later key. */
  lemma HeadIsLeast(a: string, t: seq<string>, rank: string -> int)
    requires AscendingBy([a] + t, rank)
    ensures forall k :: k in t ==> rank(a) <= rank(k)
  {
    var s := [a] + t;
    forall j | 0 <= j < |t|
      ensures rank(a) <= rank(t[j])
    {
      assert s[0] == a && s[j + 1] == t[j];
    }
  }

  /** The tail of an ascending sequence is ascending. */
  lemma TailAscending(a: string, t: seq<string>, rank: string -> int)
    requires AscendingBy([a] + t, rank)
    ensures AscendingBy(t, rank)
  {
    var s := [a] + t;
    forall i, j | 0 <= i < j < |t|
      ensures rank(t[i]) <= rank(t[j])
    {
      assert t[i] == s[i + 1] && t[j] == s[j + 1];
    }
  }

  /** A sequence with a head is duplicate-free exactly when its tail is and
      does not contain the head. */
  lemma NoDuplicatesCons(a: string, t: seq<string>)
    ensures NoDuplicates([a] + t) <==> a !in t && NoDuplicates(t)
  {
    var s := [a] + t;
    if a !in t && NoDuplicates(t) {
      forall i, j | 0 <= i < j < |s|
        ensures s[i] != s[j]
      {
        assert s[j] == t[j - 1];
        if i > 0 {
          assert s[i] == t[i - 1];
        }
      }
    }
    if NoDuplicates(s) {
      forall j | 0 <= j < |t|
        ensures t[j] != a
      {
        assert s[0] == a && s[j + 1] == t[j];
      }
      forall i, j | 0 <= i < j < |t|
        ensures t[i] != t[j]
      {
        assert t[i] == s[i + 1] && t[j] == s[j + 1];
      }
    }
  }

  /** Puts the array index `x` into the ascending sequence `s`. */
  function Insert(x: string, s: seq<string>): (r: seq<string>)
    requires IsArrayIndex(x) && AllIndices(s)
    ensures |r| == |s| + 1
    ensures forall k :: k in r <==> k == x || k in s
    ensures AllIndices(r)
    ensures Ascending(s) ==> Ascending(r)
    ensures x !in s && NoDuplicates(s) ==> NoDuplicates(r)
    decreases |s|
  {
    if |s| == 0 || DigitsValue(x) <= DigitsValue(s[0]) then
      InsertFront(x, s);
      [x] + s
    else
      var r' := Insert(x, s[1..]);
      InsertAfterHead(x, s, r');
      [s[0]] + r'
  }

  /** Putting `x` in front keeps a sequence ascending when `x` ranks no
      higher than its head, and duplicate-free when `x` is new. */
  lemma InsertFront(x: string, s: seq<string>)
    requires |s| == 0 || DigitsValue(x) <= DigitsValue(s[0])
    ensures Ascending(s) ==> Ascending([x] + s)
    ensures x !in s && NoDuplicates(s) ==> NoDuplicates([x] + s)
  {
    if Ascending(s) {
      PrependLeast(x, s, DigitsValue);
    }
    NoDuplicatesCons(x, s);
  }

  /** An ascending sequence stays ascending with a new head that ranks no
      higher than the old one. */
  lemma PrependLeast(x: string, s: seq<string>, rank: string -> int)
    requires AscendingBy(s, rank)
    requires |s| == 0 || rank(x) <= rank(s[0])
    ensures AscendingBy([x] + s, rank)
  {
    forall k | k in s
      ensures rank(x) <= rank(k)
    {
      var j :| 0 <= j < |s| && s[j] == k;
      assert j == 0 || rank(s[0]) <= rank(s[j]);
    }
    AscendingConsIntro(x, s, rank);
  }

  /** Keeping the head of `s` in front of `r'`, the insertion of `x` into the
      tail, keeps the sequence ascending when `x` ranks above the head, and
      duplicate-free when `x` is new. */
  lemma InsertAfterHead(x: string, s: seq<string>, r': seq<string>)
    requires |s| > 0 && DigitsValue(s[0]) < DigitsValue(x)
    requires forall k :: k in r' <==> k == x || k in s[1..]
    requires Ascending(s[1..]) ==> Ascending(r')
    requires x !in s[1..] && NoDuplicates(s[1..]) ==> NoDuplicates(r')
    ensures Ascending(s) ==> Ascending([s[0]] + r')
    ensures x !in s && NoDuplicates(s) ==> NoDuplicates([s[0]] + r')
  {
    assert s == [s[0]] + s[1..];
    AscendingCons(s[0], s[1..], DigitsValue);
    AscendingCons(s[0], r', DigitsValue);
    NoDuplicatesCons(s[0], s[1..]);
    NoDuplicatesCons(s[0], r');
  }

  /** The array indices of `s`, sorted by numeric value. */
  function SortByIndex(s: seq<string>): (r: seq<string>)
    requires AllIndices(s)
    ensures |r| == |s|
    ensures forall k :: k in r <==> k in s
    ensures AllIndices(r) && Ascending(r)
    ensures NoDuplicates(s) ==> NoDuplicates(r)
    decreases |s|
  {
    if |s| == 0 then [] else Insert(s[0], SortByIndex(s[1..]))
  }

  /** Joining two duplicate-free sequences, the first of array indices only
      and the second of other keys only, gives a duplicate-free sequence. */
  lemma DisjointConcat(a: seq<string>, b: seq<string>)
    requires forall k :: k in a ==> IsArrayIndex(k)
    requires forall k :: k in b ==> IsNamedKey(k)
    ensures NoDuplicates(a) && NoDuplicates(b) ==> NoDuplicates(a + b)
  {
    if NoDuplicates(a) && NoDuplicates(b) {
      var r := a + b;
      forall i, j | 0 <= i < j < |r|
        ensures r[i] != r[j]
      {
        if j < |a| {
          assert r[i] == a[i] && r[j] == a[j];
        } else if |a| <= i {
          assert r[i] == b[i - |a|] && r[j] == b[j - |a|];
        } else {
          assert r[i] == a[i] && a[i] in a;
          assert r[j] == b[j - |a|] && b[j - |a|] in b;
        }
      }
    }
  }

  /** In `a + b`, with only array indices in `a` and none in `b`, the
      array indices are exactly the first |a| keys. */
  lemma IndicesFirst(a: seq<string>, b: seq<string>)
    requires AllIndices(a)
    requires forall k :: k in b ==> IsNamedKey(k)
    ensures forall i :: 0 <= i < |a + b| ==> (IsArrayIndex((a + b)[i]) <==> i < |a|)
  {
    var r := a + b;
    forall i | 0 <= i < |r|
      ensures IsArrayIndex(r[i]) <==> i < |a|
    {
      if i < |a| {
        assert r[i] == a[i] && a[i] in a;
      } else {
        assert r[i] == b[i - |a|] && b[i - |a|] in b;
      }
    }
  }

  /** Keys of an ascending `a` stay ascending at the front of `a + b`. */
  lemma IndicesAscending(a: seq<string>, b: seq<string>)
    requires AllIndices(a) && Ascending(a)
    requires forall k :: k in b ==> IsNamedKey(k)
    ensures forall i, j :: 0 <= i < j < |a + b| && IsArrayIndex((a + b)[j]) ==>
              DigitsValue((a + b)[i]) <= DigitsValue((a + b)[j])
  {
    IndicesFirst(a, b);
    var r := a + b;
    forall i, j | 0 <= i < j < |r| && IsArrayIndex(r[j])
      ensures DigitsValue(r[i]) <= DigitsValue(r[j])
    {
      assert j < |a|;
      assert r[i] == a[i] && r[j] == a[j];
      assert DigitsValue(a[i]) <= DigitsValue(a[j]);
    }
  }

  /** The keys of `b` keep their relative order at the back of `a + b`. */
  lemma NamedKeepOrder(a: seq<string>, b: seq<string>, order: seq<string>)
    requires AllIndices(a)
    requires forall k :: k in b ==> IsNamedKey(k)
    requires forall i, j :: 0 <= i < j < |b| ==> IndexOf(order, b[i]) < IndexOf(order, b[j])
    ensures forall i, j :: 0 <= i < j < |a + b| && IsNamedKey((a + b)[i]) ==>
              IndexOf(order, (a + b)[i]) < IndexOf(order, (a + b)[j])
  {
    var r := a + b;
    forall i, j | 0 <= i < j < |r| && IsNamedKey(r[i])
      ensures IndexOf(order, r[i]) < IndexOf(order, r[j])
    {
      assert r[i] == b[i - |a|] && r[j] == b[j - |a|];
    }
  }

  /** The keys of an object whose keys were created in the order `order`, as
      `Object.keys` lists them: the array indices sorted by value, then the
      other keys in creation order (section 10.1.11.1 of ECMA-262,
      OrdinaryOwnPropertyKeys). The order it gives is `ObjectKeysOrder`. */
  function ObjectKeys(order: seq<string>): (r: seq<string>)
    ensures forall k :: k in r <==> k in order
    ensures NoDuplicates(order) ==> NoDuplicates(r)
  {
    var sorted := SortByIndex(Filter(order, IsArrayIndex));
    var named := Filter(order, IsNamedKey);
    DisjointConcat(sorted, named);
    sorted + named
  }

  /** `Object.keys` lists the array indices before every other key, in
      ascending numeric order, and the other keys in their creation order. */
  lemma ObjectKeysOrder(order: seq<string>)
    ensures var r := ObjectKeys(order);
            // Array indices come before every other key ...
            && (forall i, j :: 0 <= i < j < |r| && IsArrayIndex(r[j]) ==> IsArrayIndex(r[i]))
            // ... in ascending numeric order ...
            && (forall i, j :: 0 <= i < j < |r| && IsArrayIndex(r[j]) ==>
                  DigitsValue(r[i]) <= DigitsValue(r[j]))
            // ... and the other keys keep their creation order.
            && (NoDuplicates(order) ==>
                  forall i, j :: 0 <= i < j < |r| && IsNamedKey(r[i]) ==>
                    IndexOf(order, r[i]) < IndexOf(order, r[j]))
  {
    var sorted := SortByIndex(Filter(order, IsArrayIndex));
    var named := Filter(order, IsNamedKey);
    assert ObjectKeys(order) == sorted + named;
    IndicesFirst(sorted, named);
    IndicesAscending(sorted, named);
    if NoDuplicates(order) {
      NamedKeepOrder(sorted, named, order);
    }
  }

  /** Which keys are array indices, on a few cases. */
  lemma ArrayIndexExamples()
    ensures IsArrayIndex("0") && IsArrayIndex("5") && IsArrayIndex("9") && IsArrayIndex("10")
    ensures IsArrayIndex("4294967294") && !IsArrayIndex("4294967295")
    ensures !IsArrayIndex("") && !IsArrayIndex("01") && !IsArrayIndex("-1")
    ensures !IsArrayIndex("atv") && !IsArrayIndex("vga")
  {
    SmallIndices();
    LargestIndex();
    assert "01"[0] == '0';
    assert "-1"[0] == '-';
    assert "atv"[0] == 'a' && "vga"[0] == 'v';
  }

  /** A few small array indices. */
  lemma SmallIndices()
    ensures IsArrayIndex("0") && IsArrayIndex("5") && IsArrayIndex("9") && IsArrayIndex("10")
  {
    assert DigitsValue("0") == 0 && DigitsValue("5") == 5 && DigitsValue("9") == 9;
    assert "1"[..0] == "";
    assert DigitsValue("1") == 1;
    assert "10"[..1] == "1";
    assert DigitsValue("10") == 10;
  }

  /** 2^32 - 2 is the largest array index; 2^32 - 1 is a named key. */
  lemma LargestIndex()
    ensures IsArrayIndex("4294967294") && !IsArrayIndex("4294967295")
  {
    assert DigitsValue("429496729") == 429496729 by {
      DigitsPrefix();
    }
    assert "4294967295"[..9] == "429496729";
    assert DigitsValue("4294967295") == 4294967295;
    assert "4294967294"[..9] == "429496729";
    assert DigitsValue("4294967294") == 4294967294;
  }

  /** The value of the first nine digits of 2^32, digit by digit. */
  lemma DigitsPrefix()
    ensures DigitsValue("429496729") == 429496729
  {
    assert "4"[..0] == "";
    assert DigitsValue("4") == 4;
    assert "42"[..1] == "4";
    assert DigitsValue("42") == 42;
    assert "429"[..2] == "42";
    assert DigitsValue("429") == 429;
    assert "4294"[..3] == "429";
    assert DigitsValue("4294") == 4294;
    assert "42949"[..4] == "4294";
    assert DigitsValue("42949") == 42949;
    assert "429496"[..5] == "42949";
    assert DigitsValue("429496") == 429496;
    assert "4294967"[..6] == "429496";
    assert DigitsValue("4294967") == 4294967;
    assert "42949672"[..7] == "4294967";
    assert DigitsValue("42949672") == 42949672;
    assert "429496729"[..8] == "42949672";
  }

  /** `Object.keys` lists "9" before "10" whatever their creation order. */
  lemma NumericKeysExample()
    ensures ObjectKeys(["10", "9"]) == ["9", "10"]
  {
    var o := ["10", "9"];
    NumericKeysFiltered();
    NumericKeysSorted();
    assert ObjectKeys(o) == SortByIndex(o) + [];
  }

  /** Both keys of the numeric example are array indices. */
  lemma NumericKeysFiltered()
    ensures Filter(["10", "9"], IsArrayIndex) == ["10", "9"]
    ensures Filter(["10", "9"], IsNamedKey) == []
  {
    SmallIndices();
    var o := ["10", "9"];
    assert o[1..] == ["9"] && ["9"][1..] == [];
    assert Filter(["9"], IsArrayIndex) == ["9"];
    assert Filter(["9"], IsNamedKey) == [];
  }

  /** Sorting the numeric example puts 9 before 10. */
  lemma NumericKeysSorted()
    ensures SortByIndex(["10", "9"]) == ["9", "10"]
  {
    assert IsArrayIndex("10") by {
      assert "10"[..1] == "1";
    }
    var o := ["10", "9"];
    assert o[1..] == ["9"] && ["9"][1..] == [];
    assert SortByIndex(["9"]) == ["9"];
    InsertTenAfterNine();
  }

  /** "10" is inserted after "9". */
  lemma InsertTenAfterNine()
    ensures IsArrayIndex("10") && Insert("10", ["9"]) == ["9", "10"]
  {
    assert "10"[..1] == "1";
    assert DigitsValue("10") == 10;
    assert DigitsValue("9") == 9;
    assert ["9"][1..] == [];
    assert Insert("10", []) == ["10"];
  }

  /** `Object.keys` lists an array-index SKU before a named one created
      earlier. */
  lemma MixedKeysExample()
    ensures ObjectKeys(["atv", "5"]) == ["5", "atv"]
  {
    assert IsArrayIndex("5");
    assert !IsArrayIndex("atv") by { assert "atv"[0] == 'a'; }
    var o := ["atv", "5"];
    assert o[1..] == ["5"] && ["5"][1..] == [];
    assert Filter(["5"], IsArrayIndex) == ["5"];
    assert Filter(o, IsArrayIndex) == ["5"];
    assert Filter(["5"], IsNamedKey) == [];
    assert Filter(o, IsNamedKey) == ["atv"];
    assert SortByIndex(["5"]) == ["5"];
  }

  /** Named keys keep their creation order. */
  lemma NamedKeysExample()
    ensures ObjectKeys(["vga", "atv"]) == ["vga", "atv"]
  {
    assert !IsArrayIndex("atv") by { assert "atv"[0] == 'a'; }
    assert !IsArrayIndex("vga") by { assert "vga"[0] == 'v'; }
    var o := ["vga", "atv"];
    assert o[1..] == ["atv"] && ["atv"][1..] == [];
    assert Filter(["atv"], IsArrayIndex) == [];
    assert Filter(o, IsArrayIndex) == [];
    assert Filter(["atv"], IsNamedKey) == ["atv"];
    assert Filter(o, IsNamedKey) == o;
  }
}
