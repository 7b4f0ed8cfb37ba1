/** The loops that flatten attributes into a dictionary and that read lists back from it. */
module TerraformMethods {
  import opened Resources
  import opened Arbitration
  import opened Decimals
  import opened Terraform
  import opened TerraformRoundTrip

  /* ----- Dictionaries ----- */

  lemma {:induction false} PutKeys(d: Dictionary, key: string, value: Value, k: string)
    ensures HasKey(Put(d, key, value), k) <==> HasKey(d, k) || k == key
  {
    if d == [] {
      HasKeySnoc([], (key, value), k);
      assert [] + [(key, value)] == [(key, value)];
    } else {
      assert d == Front(d) + [Last(d)];
      HasKeySnoc(Front(d), Last(d), k);
      HasKeySnoc(Front(d), (key, value), k);
      HasKeySnoc(d, (key, value), k);
      if Last(d).0 != key && HasKey(Front(d), key) {
        PutKeys(Front(d), key, value, k);
        HasKeySnoc(Put(Front(d), key, value), Last(d), k);
      }
    }
  }

  lemma PutSnoc(d: Dictionary, e: (string, Value), key: string, value: Value)
    ensures Put(d + [e], key, value) ==
            if e.0 == key then d + [(key, value)]
            else if HasKey(d, key) then Put(d, key, value) + [e]
            else d + [e] + [(key, value)]
  {
    assert Front(d + [e]) == d;
  }

  /** Writing a key twice is writing it the second time. */
  lemma {:induction false} PutTwice(d: Dictionary, key: string, v1: Value, v2: Value)
    ensures Put(Put(d, key, v1), key, v2) == Put(d, key, v2)
  {
    hide HasKey;
    if d == [] {
      assert [(key, v1)] == [] + [(key, v1)];
      PutSnoc([], (key, v1), key, v2);
    } else {
      var front, last := Front(d), Last(d);
      assert d == front + [last];
      PutSnoc(front, last, key, v1);
      PutSnoc(front, last, key, v2);
      if last.0 == key {
        PutSnoc(front, (key, v1), key, v2);
      } else if HasKey(front, key) {
        PutTwice(front, key, v1, v2);
        PutKeys(front, key, v1, key);
        PutSnoc(Put(front, key, v1), last, key, v2);
      } else {
        PutSnoc(d, (key, v1), key, v2);
      }
    }
  }

  /** A key that is already there can be written before or after another one. */
  lemma {:induction false} PutCommutes(d: Dictionary, key: string, value: Value, other: string, value': Value)
    requires HasKey(d, key) && key != other
    ensures Put(Put(d, key, value), other, value') == Put(Put(d, other, value'), key, value)
  {
    hide HasKey;
    if d == [] {
      NoKey(key);
    } else {
      var front, last := Front(d), Last(d);
      assert d == front + [last];
      HasKeySnoc(front, last, key);
      PutSnoc(front, last, key, value);
      PutSnoc(front, last, other, value');
      if last.0 == key {
        PutSnoc(front, (key, value), other, value');
        PutSnoc(Put(front, other, value'), last, key, value);
        PutSnoc(front + [last], (other, value'), key, value);
        PutSnoc(front, last, key, value);
      } else if last.0 == other {
        PutSnoc(Put(front, key, value), last, other, value');
        PutSnoc(front, (other, value'), key, value);
      } else {
        PutCommutes(front, key, value, other, value');
        PutKeys(front, key, value, other);
        PutKeys(front, other, value', key);
        PutSnoc(Put(front, key, value), last, other, value');
        PutSnoc(Put(front, other, value'), last, key, value);
        PutSnoc(d, (other, value'), key, value);
        HasKeySnoc(front, last, other);
        PutNewBehind(front, other, value', key, value);
      }
    }
  }

  lemma NoKey(key: string)
    ensures !HasKey([], key)
  {
  }

  lemma PutNewBehind(front: Dictionary, other: string, value': Value, key: string, value: Value)
    ensures !HasKey(front, other) ==> Put(front, other, value') == front + [(other, value')]
  {
    if !HasKey(front, other) {
      PutNew(front, other, value');
    }
  }

  lemma {:induction false} UpdateKeys(d: Dictionary, more: Dictionary, k: string)
    ensures HasKey(Update(d, more), k) <==> HasKey(d, k) || HasKey(more, k)
  {
    hide HasKey, Put;
    if more == [] {
      NoKey(k);
    } else {
      UpdateKeys(d, Front(more), k);
      PutKeys(Update(d, Front(more)), Last(more).0, Last(more).1, k);
      HasKeySnoc(Front(more), Last(more), k);
      assert more == Front(more) + [Last(more)];
    }
  }

  lemma UpdateSnoc(d: Dictionary, more: Dictionary, e: (string, Value))
    ensures Update(d, more + [e]) == Put(Update(d, more), e.0, e.1)
  {
    assert Front(more + [e]) == more;
  }

  lemma {:induction false} UpdatePut(d: Dictionary, more: Dictionary, key: string, value: Value)
    ensures Update(d, Put(more, key, value)) == Put(Update(d, more), key, value)
  {
    hide HasKey, Put, Update;
    if more == [] {
      NoKey(key);
      PutNew([], key, value);
      UpdateSnoc(d, [], (key, value));
    } else {
      var front, last := Front(more), Last(more);
      assert more == front + [last];
      PutSnoc(front, last, key, value);
      UpdateSnoc(d, front, last);
      if last.0 == key {
        UpdateSnoc(d, front, (key, value));
        PutTwice(Update(d, front), key, last.1, value);
      } else if HasKey(front, key) {
        UpdatePut(d, front, key, value);
        UpdateKeys(d, front, key);
        UpdateSnoc(d, Put(front, key, value), last);
        PutCommutes(Update(d, front), key, value, last.0, last.1);
      } else {
        UpdateSnoc(d, more, (key, value));
      }
    }
  }

  /** Updating by an updated dictionary is updating twice. */
  lemma {:induction false} UpdateAssociative(d: Dictionary, a: Dictionary, b: Dictionary)
    ensures Update(d, Update(a, b)) == Update(Update(d, a), b)
  {
    hide Put;
    if b != [] {
      UpdateAssociative(d, a, Front(b));
      UpdatePut(d, Update(a, Front(b)), Last(b).0, Last(b).1);
    }
  }

  /* ----- Flattening ----- */

  lemma UpdateOne(d: Dictionary, key: string, value: Value)
    ensures Update(d, [(key, value)]) == Put(d, key, value)
  {
    assert Front([(key, value)]) == [];
  }

  method ConvertItem(item: Item, prefix: string, random: string -> nat) returns (result: Dictionary)
    ensures result == FlatItem(item, prefix, random)
    decreases item, 1
  {
    match item
    case Word(text) => result := [(prefix + Decimal(random(prefix)), Text(text))];
    case Nested(attributes) => result := ConvertToV3Structure(attributes, prefix, random);
  }

  /** Writes the flattened attributes into one dictionary, item by item. */
  method ConvertToV3Structure(attributes: seq<Field>, prefix: string, random: string -> nat)
    returns (result: Dictionary)
    ensures result == Flat(attributes, prefix, random)
    decreases attributes, 0
  {
    hide Put, FlatItem;
    result := [];
    for n := 0 to |attributes|
      invariant result == Flat(attributes[..n], prefix, random)
    {
      var key, value := attributes[n].key, attributes[n].value;
      ghost var before := result;
      assert Front(attributes[..n + 1]) == attributes[..n] && Last(attributes[..n + 1]) == attributes[n];
      assert attributes[n] in attributes;
      match value {
        case Leaf(v) =>
          UpdateOne(result, prefix + key, v);
          result := Put(result, prefix + key, v);
        case Dict(entries) =>
          result := ConvertDictionary(result, entries, prefix + key);
        case List(items) =>
          ghost var size: Dictionary := if items == [] then [] else [(prefix + key + ".#", Size(|items|))];
          if |items| > 0 {
            UpdateOne(result, prefix + key + ".#", Size(|items|));
            result := Put(result, prefix + key + ".#", Size(|items|));
          }
          for i := 0 to |items|
            invariant result == Update(Update(before, size), FlatItems(items[..i], prefix + key + ".", random))
          {
            assert Front(items[..i + 1]) == items[..i] && Last(items[..i + 1]) == items[i];
            var more := ConvertItem(items[i], prefix + key + "." + Decimal(i) + ".", random);
            UpdateAssociative(Update(before, size), FlatItems(items[..i], prefix + key + ".", random), more);
            result := Update(result, more);
          }
          assert items[..|items|] == items;
          UpdateAssociative(before, size, FlatItems(items, prefix + key + ".", random));
      }
    }
    assert attributes[..|attributes|] == attributes;
  }

  /** One level of a dictionary. */
  method ConvertDictionary(before: Dictionary, entries: Dictionary, path: string) returns (result: Dictionary)
    ensures result == Update(before, Update([(path + ".%", Size(|entries|))], Prefixed(entries, path + ".")))
  {
    hide Put;
    ghost var size := [(path + ".%", Size(|entries|))];
    UpdateOne(before, path + ".%", Size(|entries|));
    result := Put(before, path + ".%", Size(|entries|));
    for i := 0 to |entries|
      invariant result == Update(Update(before, size), Prefixed(entries[..i], path + "."))
    {
      assert Front(entries[..i + 1]) == entries[..i] && Last(entries[..i + 1]) == entries[i];
      UpdatePut(Update(before, size), Prefixed(entries[..i], path + "."), path + "." + entries[i].0, entries[i].1);
      result := Put(result, path + "." + entries[i].0, entries[i].1);
    }
    assert entries[..|entries|] == entries;
    UpdateAssociative(before, size, Prefixed(entries, path + "."));
  }

  /* ----- Parsing ----- */

  method ParsePrefixed(source: Dictionary, prefix: string) returns (found: Dictionary)
    ensures found == ParsePrefix(source, prefix)
  {
    found := [];
    for i := 0 to |source|
      invariant found == ParsePrefix(source[..i], prefix)
    {
      assert Front(source[..i + 1]) == source[..i] && Last(source[..i + 1]) == source[i];
      var parts := SplitOnce(source[i].0);
      if parts.None? || parts.value.0 != prefix || parts.value.1 == "#" {
        continue;
      }
      found := found + [(parts.value.1, source[i].1)];
    }
    assert source[..|source|] == source;
  }

  /** Groups the entries of a list of dictionaries by their position in the list. */
  method GroupEntries(source: Dictionary, prefix: string) returns (groups: Option<Groups>)
    ensures groups == Terraform.Grouped(ParsePrefix(source, prefix))
  {
    hide ParsePrefix, PutIn;
    var found := ParsePrefixed(source, prefix);
    var all: Groups := [];
    for i := 0 to |found|
      invariant Terraform.Grouped(found[..i]) == Some(all)
    {
      assert Front(found[..i + 1]) == found[..i] && Last(found[..i + 1]) == found[i];
      var parts := SplitOnce(found[i].0);
      if parts.None? {
        NeverGrouped(found, i + 1);
        return None;
      }
      all := PutIn(all, parts.value.0, parts.value.1, found[i].1);
    }
    assert found[..|found|] == found;
    groups := Some(all);
  }

  lemma {:induction false} NeverGrouped(d: Dictionary, n: nat)
    requires n <= |d| && Terraform.Grouped(d[..n]).None?
    ensures Terraform.Grouped(d).None?
    decreases |d| - n
  {
    if n == |d| {
      assert d[..n] == d;
    } else {
      assert Front(d[..n + 1]) == d[..n];
      NeverGrouped(d, n + 1);
    }
  }
}
