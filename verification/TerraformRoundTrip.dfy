/** Lists survive flattening and parsing. */
module TerraformRoundTrip {
  import opened Resources
  import opened Arbitration
  import opened Decimals
  import opened Terraform

  /* ----- Dictionaries ----- */

  lemma {:induction false} PutNew(d: Dictionary, key: string, value: Value)
    requires !HasKey(d, key)
    ensures Put(d, key, value) == d + [(key, value)]
  {
    if d != [] {
      assert d[|d| - 1].0 != key;
      forall i | 0 <= i < |Front(d)|
        ensures Front(d)[i].0 != key
      {
        assert Front(d)[i] == d[i];
      }
    }
  }

  ghost predicate Apart(d: Dictionary, more: Dictionary) {
    forall i :: 0 <= i < |more| ==> !HasKey(d, more[i].0)
  }

  lemma {:induction false} UpdateNew(d: Dictionary, more: Dictionary)
    requires DistinctKeys(more) && Apart(d, more)
    ensures Update(d, more) == d + more
  {
    if more == [] {
      assert d + more == d;
    } else {
      var front, last := Front(more), Last(more);
      assert more[|front|] == last;
      assert forall i :: 0 <= i < |front| ==> front[i] == more[i];
      UpdateNew(d, front);
      assert !HasKey(d + front, last.0) by {
        assert !HasKey(d, last.0);
      }
      PutNew(d + front, last.0, last.1);
      assert d + more == (d + front) + [last];
    }
  }

  /* ----- Keys and their first parts ----- */

  lemma {:induction false} SplitFirst(x: string, rest: string)
    requires '.' !in x
    ensures SplitOnce(x + "." + rest) == Some((x, rest)) && SplitOnce(x) == None
  {
    if x != "" {
      assert (x + "." + rest)[1..] == x[1..] + "." + rest;
      assert x == [x[0]] + x[1..];
      SplitFirst(x[1..], rest);
    } else {
      assert ("." + rest)[1..] == rest;
    }
  }

  ghost predicate Extend(d: Dictionary, prefix: string) {
    forall i :: 0 <= i < |d| ==> prefix <= d[i].0
  }

  lemma {:induction false} PutExtends(d: Dictionary, key: string, value: Value, prefix: string)
    requires Extend(d, prefix) && prefix <= key
    ensures Extend(Put(d, key, value), prefix)
  {
    if d != [] {
      assert forall i :: 0 <= i < |Front(d)| ==> Front(d)[i] == d[i];
      assert Extend(Front(d), prefix);
      if Last(d).0 != key && HasKey(Front(d), key) {
        PutExtends(Front(d), key, value, prefix);
        assert Last(d) == d[|d| - 1];
      }
    }
  }

  lemma {:induction false} UpdateExtends(d: Dictionary, more: Dictionary, prefix: string)
    requires Extend(d, prefix) && Extend(more, prefix)
    ensures Extend(Update(d, more), prefix)
  {
    if more != [] {
      assert forall i :: 0 <= i < |Front(more)| ==> Front(more)[i] == more[i];
      assert Last(more) == more[|more| - 1];
      UpdateExtends(d, Front(more), prefix);
      PutExtends(Update(d, Front(more)), Last(more).0, Last(more).1, prefix);
    }
  }

  lemma ExtendLess(d: Dictionary, prefix: string, shorter: string)
    requires Extend(d, prefix) && shorter <= prefix
    ensures Extend(d, shorter)
  {
  }

  lemma {:induction false} PrefixedExtends(entries: Dictionary, prefix: string)
    ensures Extend(Prefixed(entries, prefix), prefix)
  {
    if entries != [] {
      PrefixedExtends(Front(entries), prefix);
      PutExtends(Prefixed(Front(entries), prefix), prefix + Last(entries).0, Last(entries).1, prefix);
    }
  }

  /** Every key starts with the prefix under which its attribute was flattened. */
  lemma {:induction false} AttributeExtends(key: string, value: Attribute, prefix: string, random: string -> nat)
    ensures Extend(FlatAttribute(key, value, prefix, random), prefix + key)
    ensures !value.Leaf? ==> Extend(FlatAttribute(key, value, prefix, random), prefix + key + ".")
    decreases value, 1
  {
    match value
    case Leaf(_) =>
    case Dict(entries) =>
      PrefixedExtends(entries, prefix + key + ".");
      UpdateExtends([(prefix + key + ".%", Size(|entries|))], Prefixed(entries, prefix + key + "."),
                    prefix + key + ".");
      ExtendLess(FlatAttribute(key, value, prefix, random), prefix + key + ".", prefix + key);
    case List(items) =>
      ItemsExtend(items, prefix + key + ".", random);
      UpdateExtends(if items == [] then [] else [(prefix + key + ".#", Size(|items|))],
                    FlatItems(items, prefix + key + ".", random),
                    prefix + key + ".");
      ExtendLess(FlatAttribute(key, value, prefix, random), prefix + key + ".", prefix + key);
  }

  lemma {:induction false} ItemsExtend(items: seq<Item>, prefix: string, random: string -> nat)
    ensures Extend(FlatItems(items, prefix, random), prefix)
    decreases items, 0
  {
    if items != [] {
      var itemPrefix := prefix + Decimal(|items| - 1) + ".";
      ItemsExtend(Front(items), prefix, random);
      ItemExtends(Last(items), itemPrefix, random);
      ExtendLess(FlatItem(Last(items), itemPrefix, random), itemPrefix, prefix);
      UpdateExtends(FlatItems(Front(items), prefix, random), FlatItem(Last(items), itemPrefix, random), prefix);
    }
  }

  lemma {:induction false} ItemExtends(item: Item, prefix: string, random: string -> nat)
    ensures Extend(FlatItem(item, prefix, random), prefix)
    decreases item, 1
  {
    if item.Nested? {
      FlatExtends(item.attributes, prefix, random);
    }
  }

  lemma {:induction false} FlatExtends(attributes: seq<Field>, prefix: string, random: string -> nat)
    ensures Extend(Flat(attributes, prefix, random), prefix)
    decreases attributes, 0
  {
    if attributes != [] {
      var last := Last(attributes);
      FlatExtends(Front(attributes), prefix, random);
      AttributeExtends(last.key, last.value, prefix, random);
      ExtendLess(FlatAttribute(last.key, last.value, prefix, random), prefix + last.key, prefix);
      UpdateExtends(Flat(Front(attributes), prefix, random), FlatAttribute(last.key, last.value, prefix, random),
                    prefix);
    }
  }

  /* ----- The entries of one attribute ----- */

  predicate Belongs(key: string, top: string) {
    SplitOnce(key).Some? && SplitOnce(key).value.0 == top
  }

  /** The entries under one top-level key. */
  function Select(d: Dictionary, top: string): Dictionary {
    if d == [] then [] else Select(Front(d), top) + if Belongs(Last(d).0, top) then [Last(d)] else []
  }

  lemma {:induction false} SelectSnoc(d: Dictionary, e: (string, Value), top: string)
    ensures Select(d + [e], top) == Select(d, top) + if Belongs(e.0, top) then [e] else []
  {
    assert Front(d + [e]) == d && Last(d + [e]) == e;
  }

  lemma {:induction false} SelectHasKey(d: Dictionary, key: string, top: string)
    requires Belongs(key, top)
    ensures HasKey(Select(d, top), key) <==> HasKey(d, key)
  {
    if d != [] {
      SelectHasKey(Front(d), key, top);
      HasKeySnoc(Front(d), Last(d), key);
      assert d == Front(d) + [Last(d)];
      if Belongs(Last(d).0, top) {
        HasKeySnoc(Select(Front(d), top), Last(d), key);
      } else {
        assert Select(d, top) == Select(Front(d), top);
      }
    }
  }

  lemma HasKeySnoc(d: Dictionary, e: (string, Value), key: string)
    ensures HasKey(d + [e], key) <==> HasKey(d, key) || e.0 == key
  {
    if i :| 0 <= i < |d + [e]| && (d + [e])[i].0 == key {
      if i < |d| {
        assert d[i].0 == key;
      }
    }
    if i :| 0 <= i < |d| && d[i].0 == key {
      assert (d + [e])[i].0 == key;
    }
    assert (d + [e])[|d|] == e;
  }

  lemma {:induction false} SelectPut(d: Dictionary, key: string, value: Value, top: string)
    ensures Select(Put(d, key, value), top) ==
            if Belongs(key, top) then Put(Select(d, top), key, value) else Select(d, top)
  {
    hide Belongs, HasKey;
    if d == [] {
      SelectSnoc([], (key, value), top);
      assert [] + [(key, value)] == [(key, value)];
    } else {
      var front, last := Front(d), Last(d);
      assert d == front + [last];
      SelectSnoc(front, last, top);
      if last.0 == key {
        SelectSnoc(front, (key, value), top);
      } else if HasKey(front, key) {
        SelectPut(front, key, value, top);
        SelectSnoc(Put(front, key, value), last, top);
        PutBefore(front, last, key, value, top);
        assert Select(front, top) + [] == Select(front, top);
        assert Put(Select(front, top), key, value) + [] == Put(Select(front, top), key, value);
      } else {
        SelectSnoc(d, (key, value), top);
        PutBehind(d, key, value, top);
      }
    }
  }

  lemma PutBefore(front: Dictionary, last: (string, Value), key: string, value: Value, top: string)
    requires last.0 != key && HasKey(front, key)
    ensures Belongs(key, top) && Belongs(last.0, top) ==>
              Put(Select(front, top) + [last], key, value) == Put(Select(front, top), key, value) + [last]
  {
    if Belongs(key, top) && Belongs(last.0, top) {
      SelectHasKey(front, key, top);
      assert Front(Select(front, top) + [last]) == Select(front, top);
    }
  }

  lemma PutBehind(d: Dictionary, key: string, value: Value, top: string)
    requires d != [] && Last(d).0 != key && !HasKey(Front(d), key)
    ensures Belongs(key, top) ==> Put(Select(d, top), key, value) == Select(d, top) + [(key, value)]
    ensures Put(d, key, value) == d + [(key, value)]
  {
    HasKeySnoc(Front(d), Last(d), key);
    assert d == Front(d) + [Last(d)];
    if Belongs(key, top) {
      SelectHasKey(d, key, top);
      PutNew(Select(d, top), key, value);
    }
  }

  lemma {:induction false} SelectUpdate(d: Dictionary, more: Dictionary, top: string)
    ensures Select(Update(d, more), top) == Update(Select(d, top), Select(more, top))
  {
    hide Belongs, Put;
    if more != [] {
      var last := Last(more);
      SelectUpdate(d, Front(more), top);
      SelectPut(Update(d, Front(more)), last.0, last.1, top);
      var selected := Select(Front(more), top);
      assert Front(selected + [last]) == selected && Last(selected + [last]) == last;
      assert selected + [] == selected;
    }
  }

  lemma {:induction false} SelectAllOrNone(d: Dictionary, key: string, top: string)
    requires '.' !in key && Extend(d, key + ".")
    ensures Select(d, top) == if key == top then d else []
  {
    if d != [] {
      assert forall i :: 0 <= i < |Front(d)| ==> Front(d)[i] == d[i];
      SelectAllOrNone(Front(d), key, top);
      var rest := Last(d).0[|key| + 1..];
      assert Last(d) == d[|d| - 1];
      assert Last(d).0 == key + "." + rest;
      SplitFirst(key, rest);
      assert d == Front(d) + [Last(d)];
    }
  }

  /** The top-level keys of an attribute dictionary: different, and without dots. */
  ghost predicate PlainKeys(attributes: seq<Field>) {
    && (forall i :: 0 <= i < |attributes| ==> '.' !in attributes[i].key)
    && (forall i, j :: 0 <= i < j < |attributes| ==> attributes[i].key != attributes[j].key)
  }

  lemma {:induction false} UpdateEmpty(d: Dictionary)
    ensures Update(d, []) == d
  {
  }

  lemma SelectAttribute(key: string, value: Attribute, random: string -> nat, top: string)
    requires '.' !in key
    ensures var d := FlatAttribute(key, value, "", random);
            Select(d, top) == if key == top && !value.Leaf? then d else []
  {
    var d := FlatAttribute(key, value, "", random);
    assert "" + key == key;
    if value.Leaf? {
      SplitFirst(key, "");
      assert Front(d) == [];
    } else {
      AttributeExtends(key, value, "", random);
      SelectAllOrNone(d, key, top);
    }
  }

  /** Under a top-level key the flattened dictionary has exactly the entries of that attribute, in order, whatever else
      the attributes are. */
  lemma {:induction false} SelectFlat(attributes: seq<Field>, random: string -> nat, k: nat)
    requires PlainKeys(attributes) && k < |attributes| && !attributes[k].value.Leaf?
    requires DistinctKeys(FlatAttribute(attributes[k].key, attributes[k].value, "", random))
    ensures Select(Flat(attributes, "", random), attributes[k].key) ==
            FlatAttribute(attributes[k].key, attributes[k].value, "", random)
  {
    hide FlatAttribute, Update, Select, DistinctKeys;
    var front, last, top := Front(attributes), Last(attributes), attributes[k].key;
    var d, more := Flat(front, "", random), FlatAttribute(last.key, last.value, "", random);
    assert forall i :: 0 <= i < |front| ==> front[i] == attributes[i];
    assert last == attributes[|attributes| - 1];
    SelectUpdate(d, more, top);
    SelectAttribute(last.key, last.value, random, top);
    if k < |front| {
      SelectFlat(front, random, k);
      UpdateEmpty(Select(d, top));
    } else {
      SelectNone(front, random, top);
      UpdateNew([], more);
      assert [] + more == more;
    }
  }

  lemma {:induction false} SelectNone(attributes: seq<Field>, random: string -> nat, top: string)
    requires PlainKeys(attributes) && forall i :: 0 <= i < |attributes| ==> attributes[i].key != top
    ensures Select(Flat(attributes, "", random), top) == []
  {
    hide FlatAttribute;
    if attributes != [] {
      var front, last := Front(attributes), Last(attributes);
      assert forall i :: 0 <= i < |front| ==> front[i] == attributes[i];
      assert last == attributes[|attributes| - 1];
      SelectNone(front, random, top);
      SelectUpdate(Flat(front, "", random), FlatAttribute(last.key, last.value, "", random), top);
      SelectAttribute(last.key, last.value, random, top);
      UpdateEmpty([]);
    }
  }

  lemma {:induction false} ParseSelected(d: Dictionary, top: string)
    ensures ParsePrefix(Select(d, top), top) == ParsePrefix(d, top)
  {
    if d != [] {
      ParseSelected(Front(d), top);
      if Belongs(Last(d).0, top) {
        assert Front(Select(Front(d), top) + [Last(d)]) == Select(Front(d), top);
      } else {
        assert Select(d, top) == Select(Front(d), top);
      }
    }
  }

  /* ----- Simple lists ----- */

  /** The entries of attributes that are all plain values. */
  function Leaves(attributes: seq<Field>): Dictionary
    requires forall i :: 0 <= i < |attributes| ==> attributes[i].value.Leaf?
  {
    seq(|attributes|, i requires 0 <= i < |attributes| => (attributes[i].key, attributes[i].value.value))
  }

  /** A text, or a dictionary of plain values. */
  ghost predicate Simple(item: Item) {
    item.Nested? ==>
      && (forall i :: 0 <= i < |item.attributes| ==> item.attributes[i].value.Leaf?)
      && DistinctKeys(Leaves(item.attributes))
  }

  /** What a simple item holds, without the prefix. */
  function Core(item: Item, prefix: string, random: string -> nat): Dictionary
    requires Simple(item)
  {
    match item
    case Word(text) => [(Decimal(random(prefix)), Text(text))]
    case Nested(attributes) => Leaves(attributes)
  }

  function AddPrefix(d: Dictionary, prefix: string): Dictionary {
    seq(|d|, i requires 0 <= i < |d| => (prefix + d[i].0, d[i].1))
  }

  lemma AddPrefixDistinct(d: Dictionary, prefix: string)
    requires DistinctKeys(d)
    ensures DistinctKeys(AddPrefix(d, prefix))
  {
    forall i, j | 0 <= i < j < |d|
      ensures AddPrefix(d, prefix)[i].0 != AddPrefix(d, prefix)[j].0
    {
      if prefix + d[i].0 == prefix + d[j].0 {
        Behind(prefix, d[i].0, d[j].0);
      }
    }
  }

  lemma {:induction false} FlatLeaves(attributes: seq<Field>, prefix: string, random: string -> nat)
    requires forall i :: 0 <= i < |attributes| ==> attributes[i].value.Leaf?
    requires DistinctKeys(Leaves(attributes))
    ensures Flat(attributes, prefix, random) == AddPrefix(Leaves(attributes), prefix)
  {
    if attributes != [] {
      var front, last := Front(attributes), Last(attributes);
      var d, all := AddPrefix(Leaves(front), prefix), AddPrefix(Leaves(attributes), prefix);
      var more := [(prefix + last.key, last.value.value)];
      assert forall i :: 0 <= i < |front| ==> Leaves(front)[i] == Leaves(attributes)[i];
      FlatLeaves(front, prefix, random);
      AddPrefixDistinct(Leaves(attributes), prefix);
      assert all == d + more;
      assert Apart(d, more) by {
        assert forall i :: 0 <= i < |d| ==> d[i] == all[i];
        assert more[0] == all[|d|];
      }
      UpdateNew(d, more);
    }
  }

  lemma FlatSimple(item: Item, prefix: string, random: string -> nat)
    requires Simple(item)
    ensures FlatItem(item, prefix, random) == AddPrefix(Core(item, prefix, random), prefix)
    ensures DistinctKeys(Core(item, prefix, random))
  {
    if item.Nested? {
      FlatLeaves(item.attributes, prefix, random);
    }
  }

  function ItemPrefix(prefix: string, i: nat): string {
    prefix + Decimal(i) + "."
  }

  /** The flattened items one after the other. */
  function Concat(items: seq<Item>, prefix: string, random: string -> nat): Dictionary
    requires forall i :: 0 <= i < |items| ==> Simple(items[i])
  {
    if items == [] then []
    else
      var p := ItemPrefix(prefix, |items| - 1);
      Concat(Front(items), prefix, random) + AddPrefix(Core(Last(items), p, random), p)
  }

  /** Every key belongs to one of the first `n` items. */
  ghost predicate OfItems(d: Dictionary, prefix: string, n: nat) {
    forall k :: 0 <= k < |d| ==> exists i :: 0 <= i < n && ItemPrefix(prefix, i) <= d[k].0
  }

  lemma ItemPrefixesDiffer(prefix: string, i: nat, j: nat, key: string)
    requires ItemPrefix(prefix, i) <= key && ItemPrefix(prefix, j) <= key
    ensures i == j
  {
    var x, y := key[|ItemPrefix(prefix, i)|..], key[|ItemPrefix(prefix, j)|..];
    assert key == prefix + (Decimal(i) + ("." + x)) && key == prefix + (Decimal(j) + ("." + y));
    Behind(prefix, Decimal(i) + ("." + x), Decimal(j) + ("." + y));
    ReadBack(i, j, "." + x, "." + y);
  }

  lemma ItemsApart(d: Dictionary, more: Dictionary, prefix: string, n: nat)
    requires OfItems(d, prefix, n) && Extend(more, ItemPrefix(prefix, n))
    ensures Apart(d, more)
  {
    forall k, l | 0 <= k < |d| && 0 <= l < |more|
      ensures d[k].0 != more[l].0
    {
      var i :| 0 <= i < n && ItemPrefix(prefix, i) <= d[k].0;
      if d[k].0 == more[l].0 {
        ItemPrefixesDiffer(prefix, i, n, d[k].0);
      }
    }
  }

  lemma {:induction false} FlatItemsConcat(items: seq<Item>, prefix: string, random: string -> nat)
    requires forall i :: 0 <= i < |items| ==> Simple(items[i])
    ensures FlatItems(items, prefix, random) == Concat(items, prefix, random)
    ensures DistinctKeys(Concat(items, prefix, random)) && OfItems(Concat(items, prefix, random), prefix, |items|)
  {
    if items != [] {
      var front, last, n := Front(items), Last(items), |items| - 1;
      var p := ItemPrefix(prefix, n);
      assert forall i :: 0 <= i < n ==> front[i] == items[i];
      assert last == items[n];
      var d, more := Concat(front, prefix, random), AddPrefix(Core(last, p, random), p);
      FlatItemsConcat(front, prefix, random);
      FlatSimple(last, p, random);
      AddPrefixDistinct(Core(last, p, random), p);
      ItemsApart(d, more, prefix, n);
      UpdateNew(d, more);
      forall k | 0 <= k < |d + more|
        ensures exists i :: 0 <= i < n + 1 && ItemPrefix(prefix, i) <= (d + more)[k].0
      {
        if k >= |d| {
          assert ItemPrefix(prefix, n) <= (d + more)[k].0;
        } else {
          var i :| 0 <= i < n && ItemPrefix(prefix, i) <= d[k].0;
        }
      }
      DistinctTogether(d, more);
    }
  }

  lemma DistinctTogether(d: Dictionary, more: Dictionary)
    requires DistinctKeys(d) && DistinctKeys(more) && Apart(d, more)
    ensures DistinctKeys(d + more)
  {
  }

  /** The flattened list: its size, then its items. */
  lemma FlatList(key: string, items: seq<Item>, random: string -> nat)
    requires forall i :: 0 <= i < |items| ==> Simple(items[i])
    ensures var d := FlatAttribute(key, List(items), "", random);
            && d == (if items == [] then [] else [(key + ".#", Size(|items|))]) + Concat(items, key + ".", random)
            && DistinctKeys(d)
  {
    hide FlatItems, Concat, Core, Decimal, Simple, Update;
    var size := if items == [] then [] else [(key + ".#", Size(|items|))];
    var all := Concat(items, key + ".", random);
    assert "" + key + "." == key + "." && "" + key + ".#" == key + ".#";
    FlatItemsConcat(items, key + ".", random);
    SizeApart(key, size, all, |items|);
    UpdateNew(size, all);
    DistinctTogether(size, all);
  }

  lemma SizeApart(key: string, size: Dictionary, all: Dictionary, n: nat)
    requires OfItems(all, key + ".", n) && |size| <= 1 && (size != [] ==> size[0].0 == key + ".#")
    ensures Apart(size, all) && DistinctKeys(size)
  {
    hide Decimal;
    forall k | 0 <= k < |all|
      ensures all[k].0 != key + ".#"
    {
      var i :| 0 <= i < n && ItemPrefix(key + ".", i) <= all[k].0;
      DecimalDigits(i);
      assert all[k].0[|key| + 1] == Decimal(i)[0] && (key + ".#")[|key| + 1] == '#';
    }
  }

  /* ----- Parsing ----- */

  lemma {:induction false} ParseConcat(a: Dictionary, b: Dictionary, top: string)
    ensures ParsePrefix(a + b, top) == ParsePrefix(a, top) + ParsePrefix(b, top)
    decreases |b|
  {
    hide SplitOnce;
    if b == [] {
      assert a + b == a;
    } else {
      assert Front(a + b) == a + Front(b) && Last(a + b) == Last(b);
      ParseConcat(a, Front(b), top);
    }
  }

  lemma {:induction false} ParseItem(core: Dictionary, top: string, i: nat)
    requires '.' !in top
    ensures ParsePrefix(AddPrefix(core, ItemPrefix(top + ".", i)), top) == AddPrefix(core, Decimal(i) + ".")
  {
    if core != [] {
      var front, last := Front(core), Last(core);
      var all := AddPrefix(core, ItemPrefix(top + ".", i));
      var rest := Decimal(i) + "." + last.0;
      ParseItem(front, top, i);
      assert Front(all) == AddPrefix(front, ItemPrefix(top + ".", i));
      assert Last(all).0 == top + "." + rest;
      SplitFirst(top, rest);
      DecimalDigits(i);
      assert rest[0] == Decimal(i)[0];
      assert AddPrefix(core, Decimal(i) + ".") == AddPrefix(front, Decimal(i) + ".") + [(rest, last.1)];
    }
  }

  /** The items without the name of the list. */
  function Stripped(items: seq<Item>, prefix: string, random: string -> nat): Dictionary
    requires forall i :: 0 <= i < |items| ==> Simple(items[i])
  {
    if items == [] then []
    else
      Stripped(Front(items), prefix, random) +
      AddPrefix(Core(Last(items), ItemPrefix(prefix, |items| - 1), random), Decimal(|items| - 1) + ".")
  }

  lemma {:induction false} ParseItems(items: seq<Item>, top: string, random: string -> nat)
    requires '.' !in top && forall i :: 0 <= i < |items| ==> Simple(items[i])
    ensures ParsePrefix(Concat(items, top + ".", random), top) == Stripped(items, top + ".", random)
  {
    if items != [] {
      var front, last, p := Front(items), Last(items), ItemPrefix(top + ".", |items| - 1);
      assert forall i :: 0 <= i < |front| ==> front[i] == items[i];
      assert last == items[|items| - 1];
      ParseItems(front, top, random);
      ParseConcat(Concat(front, top + ".", random), AddPrefix(Core(last, p, random), p), top);
      ParseItem(Core(last, p, random), top, |items| - 1);
    }
  }

  /** What parsing finds under a list's key, whatever else was flattened with it. */
  lemma ParseFlattened(attributes: seq<Field>, random: string -> nat, k: nat)
    requires PlainKeys(attributes) && k < |attributes| && attributes[k].value.List?
    requires forall i :: 0 <= i < |attributes[k].value.items| ==> Simple(attributes[k].value.items[i])
    ensures ParsePrefix(Flat(attributes, "", random), attributes[k].key) ==
            Stripped(attributes[k].value.items, attributes[k].key + ".", random)
  {
    hide Flat, FlatAttribute, Concat, Stripped, Select, Core, ParsePrefix, Simple;
    var top, items := attributes[k].key, attributes[k].value.items;
    var all := Concat(items, top + ".", random);
    FlatList(top, items, random);
    SelectFlat(attributes, random, k);
    ParseSelected(Flat(attributes, "", random), top);
    ParseItems(items, top, random);
    ParseSize(top, |items|);
    assert [] + all == all;
    ParseConcat([(top + ".#", Size(|items|))], all, top);
    assert [] + Stripped(items, top + ".", random) == Stripped(items, top + ".", random);
  }

  lemma ParseSize(top: string, n: nat)
    requires '.' !in top
    ensures ParsePrefix([(top + ".#", Size(n))], top) == []
  {
    var size := [(top + ".#", Size(n))];
    SplitFirst(top, "#");
    assert top + ".#" == top + "." + "#" && Front(size) == [];
  }

  /* ----- The round trips ----- */

  function Words(items: seq<Item>): seq<Value>
    requires forall i :: 0 <= i < |items| ==> items[i].Word?
  {
    if items == [] then [] else Words(Front(items)) + [Text(Last(items).text)]
  }

  lemma {:induction false} ValuesConcat(a: Dictionary, b: Dictionary)
    ensures Values(a + b) == Values(a) + Values(b)
    decreases |b|
  {
    if b == [] {
      assert a + b == a;
    } else {
      assert Front(a + b) == a + Front(b) && Last(a + b) == Last(b);
      ValuesConcat(a, Front(b));
    }
  }

  lemma {:induction false} StrippedWords(items: seq<Item>, prefix: string, random: string -> nat)
    requires forall i :: 0 <= i < |items| ==> items[i].Word?
    ensures Values(Stripped(items, prefix, random)) == Words(items)
  {
    if items != [] {
      var front, last, p := Front(items), Last(items), ItemPrefix(prefix, |items| - 1);
      assert forall i :: 0 <= i < |front| ==> front[i] == items[i];
      assert last == items[|items| - 1];
      var one := AddPrefix(Core(last, p, random), Decimal(|items| - 1) + ".");
      StrippedWords(front, prefix, random);
      ValuesConcat(Stripped(front, prefix, random), one);
      assert Front(one) == [] && Last(one).1 == Text(last.text);
    }
  }

  /** A list of texts, flattened among any other attributes and parsed, comes back as it was, in order; whatever random
      numbers were drawn. */
  lemma ListRoundTrip(attributes: seq<Field>, random: string -> nat, k: nat)
    requires PlainKeys(attributes) && k < |attributes| && attributes[k].value.List?
    requires forall i :: 0 <= i < |attributes[k].value.items| ==> attributes[k].value.items[i].Word?
    ensures ParseList(Flat(attributes, "", random), attributes[k].key) == Words(attributes[k].value.items)
  {
    ParseFlattened(attributes, random, k);
    StrippedWords(attributes[k].value.items, attributes[k].key + ".", random);
  }

  lemma {:induction false} PutInNew(groups: Groups, index: string, key: string, value: Value)
    requires !HasGroup(groups, index)
    ensures PutIn(groups, index, key, value) == groups + [(index, [(key, value)])]
  {
    if groups != [] {
      assert groups[|groups| - 1].0 != index;
      assert forall i :: 0 <= i < |Front(groups)| ==> Front(groups)[i] == groups[i];
    }
  }

  /** The groups of the first items: those that hold something. */
  function GroupsOf(items: seq<Item>, prefix: string, random: string -> nat): Groups
    requires forall i :: 0 <= i < |items| ==> Simple(items[i])
  {
    if items == [] then []
    else
      var core := Core(Last(items), ItemPrefix(prefix, |items| - 1), random);
      GroupsOf(Front(items), prefix, random) + if core == [] then [] else [(Decimal(|items| - 1), core)]
  }

  lemma {:induction false} GroupIndices(items: seq<Item>, prefix: string, random: string -> nat, n: nat)
    requires |items| <= n && forall i :: 0 <= i < |items| ==> Simple(items[i])
    ensures !HasGroup(GroupsOf(items, prefix, random), Decimal(n))
  {
    if items != [] {
      assert forall i :: 0 <= i < |Front(items)| ==> Front(items)[i] == items[i];
      GroupIndices(Front(items), prefix, random, n);
      var groups := GroupsOf(Front(items), prefix, random);
      forall i | 0 <= i < |GroupsOf(items, prefix, random)|
        ensures GroupsOf(items, prefix, random)[i].0 != Decimal(n)
      {
        if i < |groups| {
          assert groups[i].0 != Decimal(n);
        } else if Decimal(|items| - 1) == Decimal(n) {
          DecimalInjective(|items| - 1, n);
        }
      }
    }
  }

  lemma GroupedOneMore(entries: Dictionary, groups: Groups, index: string, key: string, value: Value)
    requires Terraform.Grouped(entries) == Some(groups) && SplitOnce(index + "." + key) == Some((index, key))
    ensures Terraform.Grouped(entries + [(index + "." + key, value)]) == Some(PutIn(groups, index, key, value))
  {
    hide SplitOnce, PutIn;
    assert Front(entries + [(index + "." + key, value)]) == entries;
  }

  lemma PutInLast(groups: Groups, index: string, front: Dictionary, key: string, value: Value)
    requires !HasKey(front, key)
    ensures PutIn(groups + [(index, front)], index, key, value) == groups + [(index, front + [(key, value)])]
  {
    hide HasGroup, HasKey, Put;
    PutNew(front, key, value);
    assert Front(groups + [(index, front)]) == groups && Last(groups + [(index, front)]) == (index, front);
  }

  /** The entries of one item form one group. */
  lemma {:induction false} GroupedItem(before: Dictionary, groups: Groups, core: Dictionary, n: nat)
    requires Terraform.Grouped(before) == Some(groups) && !HasGroup(groups, Decimal(n)) && DistinctKeys(core)
    ensures Terraform.Grouped(before + AddPrefix(core, Decimal(n) + ".")) ==
            Some(groups + if core == [] then [] else [(Decimal(n), core)])
  {
    hide Terraform.Grouped, PutIn, SplitOnce, Decimal, HasGroup, HasKey;
    var d := Decimal(n);
    if core == [] {
      assert before + AddPrefix(core, d + ".") == before && groups + [] == groups;
    } else {
      var front, key, value := Front(core), Last(core).0, Last(core).1;
      var entries := before + AddPrefix(front, d + ".");
      FrontDistinct(core);
      GroupedItem(before, groups, front, n);
      PrefixOneMore(core, d + ".");
      assert before + AddPrefix(core, d + ".") == entries + [(d + "." + key, value)];
      DecimalDigits(n);
      SplitFirst(d, key);
      assert core == front + [(key, value)];
      if front == [] {
        assert groups + [] == groups && core == [(key, value)];
        PutInNew(groups, d, key, value);
        GroupedOneMore(entries, groups, d, key, value);
      } else {
        PutInLast(groups, d, front, key, value);
        GroupedOneMore(entries, groups + [(d, front)], d, key, value);
      }
    }
  }

  lemma FrontDistinct(core: Dictionary)
    requires DistinctKeys(core) && core != []
    ensures DistinctKeys(Front(core)) && !HasKey(Front(core), Last(core).0)
  {
    assert forall i :: 0 <= i < |Front(core)| ==> Front(core)[i] == core[i];
    assert Last(core) == core[|core| - 1];
  }

  lemma PrefixOneMore(core: Dictionary, prefix: string)
    requires core != []
    ensures AddPrefix(core, prefix) == AddPrefix(Front(core), prefix) + [(prefix + Last(core).0, Last(core).1)]
  {
  }

  lemma {:induction false} GroupedItems(items: seq<Item>, prefix: string, random: string -> nat)
    requires forall i :: 0 <= i < |items| ==> Simple(items[i])
    ensures Terraform.Grouped(Stripped(items, prefix, random)) == Some(GroupsOf(items, prefix, random))
  {
    if items != [] {
      var front, last, n := Front(items), Last(items), |items| - 1;
      var p := ItemPrefix(prefix, n);
      assert forall i :: 0 <= i < |front| ==> front[i] == items[i];
      assert last == items[n];
      GroupedItems(front, prefix, random);
      GroupIndices(front, prefix, random, n);
      FlatSimple(last, p, random);
      GroupedItem(Stripped(front, prefix, random), GroupsOf(front, prefix, random), Core(last, p, random), n);
    }
  }

  ghost predicate SimpleDictionaries(items: seq<Item>) {
    forall i :: 0 <= i < |items| ==> items[i].Nested? && Simple(items[i])
  }

  /** The dictionaries of a list. */
  function Dictionaries(items: seq<Item>): seq<Dictionary>
    requires SimpleDictionaries(items)
  {
    if items == [] then [] else Dictionaries(Front(items)) + [Leaves(Last(items).attributes)]
  }

  /** The dictionaries of a list that hold something. */
  function NonEmpty(items: seq<Item>): seq<Dictionary>
    requires SimpleDictionaries(items)
  {
    if items == [] then []
    else NonEmpty(Front(items)) + if Last(items).attributes == [] then [] else [Leaves(Last(items).attributes)]
  }

  lemma {:induction false} ContentsOfGroups(items: seq<Item>, prefix: string, random: string -> nat)
    requires SimpleDictionaries(items)
    ensures Contents(GroupsOf(items, prefix, random)) == NonEmpty(items)
  {
    if items != [] {
      var groups := GroupsOf(Front(items), prefix, random);
      assert forall i :: 0 <= i < |Front(items)| ==> Front(items)[i] == items[i];
      assert Last(items) == items[|items| - 1];
      ContentsOfGroups(Front(items), prefix, random);
      if Last(items).attributes != [] {
        var group := (Decimal(|items| - 1), Leaves(Last(items).attributes));
        assert GroupsOf(items, prefix, random) == groups + [group] && Front(groups + [group]) == groups;
      } else {
        assert GroupsOf(items, prefix, random) == groups + [] == groups;
      }
    }
  }

  lemma {:induction false} NonEmptyIsAllIff(items: seq<Item>)
    requires SimpleDictionaries(items)
    ensures |NonEmpty(items)| <= |items| == |Dictionaries(items)|
    ensures NonEmpty(items) == Dictionaries(items) <==> forall i :: 0 <= i < |items| ==> items[i].attributes != []
  {
    hide Leaves;
    if items != [] {
      assert forall i :: 0 <= i < |Front(items)| ==> Front(items)[i] == items[i];
      var front, x := Front(items), items[|items| - 1];
      NonEmptyIsAllIff(front);
      assert NonEmpty(items) == NonEmpty(front) + if x.attributes == [] then [] else [Leaves(x.attributes)];
      assert Dictionaries(items) == Dictionaries(front) + [Leaves(x.attributes)];
      if x.attributes == [] {
        assert |NonEmpty(items)| < |Dictionaries(items)|;
      } else {
        assert NonEmpty(items) == Dictionaries(items) ==> NonEmpty(front) == NonEmpty(items)[..|front|];
        assert (forall i :: 0 <= i < |items| ==> items[i].attributes != []) <==>
               (forall i :: 0 <= i < |front| ==> front[i].attributes != []);
      }
    }
  }

  /** Such a list comes back without its empty dictionaries. */
  lemma AttrListParsed(attributes: seq<Field>, random: string -> nat, k: nat)
    requires PlainKeys(attributes) && k < |attributes| && attributes[k].value.List?
    requires SimpleDictionaries(attributes[k].value.items)
    ensures ParseAttrList(Flat(attributes, "", random), attributes[k].key) ==
            Some(NonEmpty(attributes[k].value.items))
  {
    var items, prefix := attributes[k].value.items, attributes[k].key + ".";
    ParseFlattened(attributes, random, k);
    GroupedItems(items, prefix, random);
    ContentsOfGroups(items, prefix, random);
  }

  /** A list of dictionaries of plain values, flattened among any other attributes and parsed, comes back as it was and
      in order exactly when none of the dictionaries is empty. */
  lemma AttrListRoundTripIff(attributes: seq<Field>, random: string -> nat, k: nat)
    requires PlainKeys(attributes) && k < |attributes| && attributes[k].value.List?
    requires SimpleDictionaries(attributes[k].value.items)
    ensures var items := attributes[k].value.items;
            ParseAttrList(Flat(attributes, "", random), attributes[k].key) == Some(Dictionaries(items)) <==>
            forall i :: 0 <= i < |items| ==> items[i].attributes != []
  {
    hide Flat, Leaves;
    AttrListParsed(attributes, random, k);
    NonEmptyIsAllIff(attributes[k].value.items);
  }

  /** A list of three networks, of which the second has no attributes. */
  function Networks(): seq<Item> {
    [Nested([Field("fixed_ip_v4", Leaf(Text("10.0.0.1")))]), Nested([]),
     Nested([Field("fixed_ip_v4", Leaf(Text("10.0.0.3")))])]
  }

  /** It comes back as a list of two, in which the third has become the second. */
  lemma EmptyDictionaryIsLost(random: string -> nat)
    ensures SimpleDictionaries(Networks()) && Dictionaries(Networks()) ==
            [[("fixed_ip_v4", Text("10.0.0.1"))], [], [("fixed_ip_v4", Text("10.0.0.3"))]]
    ensures ParseAttrList(Flat([Field("network", List(Networks()))], "", random), "network") ==
            Some([[("fixed_ip_v4", Text("10.0.0.1"))], [("fixed_ip_v4", Text("10.0.0.3"))]])
  {
    hide Flat;
    var items := Networks();
    OneLeaf(items[0].attributes);
    OneLeaf(items[2].attributes);
    NoLeaves();
    ListOfThree(items);
    AttrListParsed([Field("network", List(items))], random, 0);
  }

  lemma OneLeaf(attributes: seq<Field>)
    requires |attributes| == 1 && attributes[0].value.Leaf?
    ensures Simple(Nested(attributes)) && Leaves(attributes) == [(attributes[0].key, attributes[0].value.value)]
  {
    assert Front(attributes) == [];
  }

  lemma NoLeaves()
    ensures Simple(Nested([])) && Leaves([]) == []
  {
  }

  lemma ListOfThree(items: seq<Item>)
    requires |items| == 3 && SimpleDictionaries(items) && items[1].attributes == []
    requires items[0].attributes != [] && items[2].attributes != []
    ensures Dictionaries(items) ==
            [Leaves(items[0].attributes), Leaves(items[1].attributes), Leaves(items[2].attributes)]
    ensures NonEmpty(items) == [Leaves(items[0].attributes), Leaves(items[2].attributes)]
  {
    hide Leaves, DistinctKeys;
    var one, two := [items[0]], [items[0], items[1]];
    assert Front(items) == two && Front(two) == one && Front(one) == [];
    assert Dictionaries(one) == [] + [Leaves(items[0].attributes)];
    assert Dictionaries(two) == Dictionaries(one) + [Leaves(items[1].attributes)];
    assert NonEmpty(one) == [] + [Leaves(items[0].attributes)];
    assert NonEmpty(two) == NonEmpty(one) + [];
  }
}
