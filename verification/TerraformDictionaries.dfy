/** A dictionary is flattened with its size and read back. */
module TerraformDictionaries {
  import opened Arbitration
  import opened Decimals
  import opened Terraform
  import opened TerraformRoundTrip

  /** Python: `dict(…)` of what is found under the prefix. */
  function ParseDict(source: Dictionary, prefix: string): Dictionary {
    Update([], ParsePrefix(source, prefix))
  }

  /* ----- Distinct keys ----- */

  lemma {:induction false} PutDistinct(d: Dictionary, key: string, value: Value)
    requires DistinctKeys(d)
    ensures DistinctKeys(Put(d, key, value))
    ensures forall k :: HasKey(Put(d, key, value), k) <==> HasKey(d, k) || k == key
  {
    if d == [] {
      assert Put(d, key, value)[0].0 == key;
    } else {
      var front, last := Front(d), Last(d);
      assert d == front + [last] && forall i :: 0 <= i < |front| ==> front[i] == d[i];
      PutDistinct(front, key, value);
      forall k
        ensures HasKey(d, k) <==> HasKey(front, k) || last.0 == k
      {
        HasKeySnoc(front, last, k);
      }
      forall k
        ensures HasKey(Put(d, key, value), k) <==> HasKey(d, k) || k == key
      {
        HasKeySnoc(front, (key, value), k);
        HasKeySnoc(d, (key, value), k);
        HasKeySnoc(Put(front, key, value), last, k);
      }
      assert !HasKey(front, last.0);
      PutBehindDistinct(d, key, value);
    }
  }

  lemma PutBehindDistinct(d: Dictionary, key: string, value: Value)
    requires d != [] && DistinctKeys(d) && DistinctKeys(Front(d))
    requires DistinctKeys(Put(Front(d), key, value))
    requires forall k :: HasKey(Put(Front(d), key, value), k) <==> HasKey(Front(d), k) || k == key
    requires !HasKey(Front(d), Last(d).0)
    ensures DistinctKeys(Put(d, key, value))
  {
    var front, last := Front(d), Last(d);
    if last.0 == key {
      Apartness(front, (key, value));
    } else if HasKey(front, key) {
      Apartness(Put(front, key, value), last);
    } else {
      HasKeySnoc(front, last, key);
      assert d == front + [last];
      Apartness(d, (key, value));
    }
  }

  lemma Apartness(d: Dictionary, e: (string, Value))
    requires DistinctKeys(d) && !HasKey(d, e.0)
    ensures DistinctKeys(d + [e])
  {
  }

  lemma {:induction false} UpdateDistinct(d: Dictionary, more: Dictionary)
    requires DistinctKeys(d)
    ensures DistinctKeys(Update(d, more))
    ensures forall k :: HasKey(Update(d, more), k) <==> HasKey(d, k) || HasKey(more, k)
  {
    if more == [] {
      assert forall k :: !HasKey(more, k);
    } else {
      var front, last := Front(more), Last(more);
      UpdateDistinct(d, front);
      PutDistinct(Update(d, front), last.0, last.1);
      assert more == front + [last];
      forall k
        ensures HasKey(more, k) <==> HasKey(front, k) || last.0 == k
      {
        HasKeySnoc(front, last, k);
      }
    }
  }

  lemma UpdateNothing(d: Dictionary)
    requires DistinctKeys(d)
    ensures Update([], d) == d
  {
    UpdateNew([], d);
    assert [] + d == d;
  }

  /* ----- Prefixes ----- */

  lemma PrefixedKey(d: Dictionary, prefix: string, key: string)
    ensures HasKey(AddPrefix(d, prefix), prefix + key) <==> HasKey(d, key)
  {
    forall i | 0 <= i < |d|
      ensures AddPrefix(d, prefix)[i].0 == prefix + key <==> d[i].0 == key
    {
      if prefix + d[i].0 == prefix + key {
        Behind(prefix, d[i].0, key);
      }
    }
  }

  lemma PrefixSnoc(d: Dictionary, prefix: string, e: (string, Value))
    ensures AddPrefix(d + [e], prefix) == AddPrefix(d, prefix) + [(prefix + e.0, e.1)]
  {
  }

  lemma {:induction false} PutPrefixed(d: Dictionary, prefix: string, key: string, value: Value)
    ensures Put(AddPrefix(d, prefix), prefix + key, value) == AddPrefix(Put(d, key, value), prefix)
  {
    if d == [] {
      assert AddPrefix([(key, value)], prefix) == [(prefix + key, value)];
    } else {
      var front, last := Front(d), Last(d);
      assert d == front + [last];
      PrefixSnoc(front, prefix, last);
      PrefixSnoc(front, prefix, (key, value));
      PrefixSnoc(d, prefix, (key, value));
      PrefixSnoc(Put(front, key, value), prefix, last);
      assert Front(AddPrefix(d, prefix)) == AddPrefix(front, prefix);
      PrefixedKey(front, prefix, key);
      PutPrefixed(front, prefix, key, value);
      if prefix + last.0 == prefix + key {
        Behind(prefix, last.0, key);
      }
    }
  }

  lemma {:induction false} UpdatePrefixed(d: Dictionary, more: Dictionary, prefix: string)
    ensures Update(AddPrefix(d, prefix), AddPrefix(more, prefix)) == AddPrefix(Update(d, more), prefix)
  {
    if more != [] {
      var front, last := Front(more), Last(more);
      assert more == front + [last];
      PrefixSnoc(front, prefix, last);
      assert Front(AddPrefix(more, prefix)) == AddPrefix(front, prefix);
      UpdatePrefixed(d, front, prefix);
      PutPrefixed(Update(d, front), prefix, last.0, last.1);
    }
  }

  lemma {:induction false} PrefixedIs(entries: Dictionary, prefix: string)
    ensures Prefixed(entries, prefix) == AddPrefix(Update([], entries), prefix)
  {
    if entries != [] {
      PrefixedIs(Front(entries), prefix);
      PutPrefixed(Update([], Front(entries)), prefix, Last(entries).0, Last(entries).1);
    }
  }

  /** The flattened dictionary: its entries, written after its size. */
  function Sized(entries: Dictionary): Dictionary {
    Update([("%", Size(|entries|))], entries)
  }

  lemma FlatDict(key: string, entries: Dictionary, random: string -> nat)
    requires DistinctKeys(entries)
    ensures FlatAttribute(key, Dict(entries), "", random) == AddPrefix(Sized(entries), key + ".")
    ensures DistinctKeys(Sized(entries)) && DistinctKeys(AddPrefix(Sized(entries), key + "."))
    ensures forall k :: HasKey(Sized(entries), k) <==> k == "%" || HasKey(entries, k)
  {
    hide Update, Put, Prefixed;
    var size := [("%", Size(|entries|))];
    assert "" + key + "." == key + "." && "" + key + ".%" == key + "." + "%";
    assert AddPrefix(size, key + ".") == [(key + "." + "%", Size(|entries|))];
    PrefixedIs(entries, key + ".");
    UpdateNothing(entries);
    UpdatePrefixed(size, entries, key + ".");
    UpdateDistinct(size, entries);
    AddPrefixDistinct(Sized(entries), key + ".");
    assert forall k :: HasKey(size, k) <==> size[0].0 == k;
  }

  /* ----- Reading it back ----- */

  /** The entries that are not taken for the size of a list. */
  function WithoutListSize(d: Dictionary): Dictionary {
    if d == [] then [] else WithoutListSize(Front(d)) + if Last(d).0 == "#" then [] else [Last(d)]
  }

  lemma {:induction false} ParseEntries(d: Dictionary, top: string)
    requires '.' !in top
    ensures ParsePrefix(AddPrefix(d, top + "."), top) == WithoutListSize(d)
  {
    if d != [] {
      var front, last := Front(d), Last(d);
      assert d == front + [last];
      PrefixSnoc(front, top + ".", last);
      assert Front(AddPrefix(d, top + ".")) == AddPrefix(front, top + ".");
      ParseEntries(front, top);
      SplitFirst(top, last.0);
    }
  }

  lemma {:induction false} WithoutKeeps(d: Dictionary)
    ensures !HasKey(WithoutListSize(d), "#")
    ensures !HasKey(d, "#") ==> WithoutListSize(d) == d
    ensures DistinctKeys(d) ==> DistinctKeys(WithoutListSize(d))
    ensures forall k :: HasKey(WithoutListSize(d), k) ==> HasKey(d, k)
  {
    if d != [] {
      var front, last := Front(d), Last(d);
      assert d == front + [last] && forall i :: 0 <= i < |front| ==> front[i] == d[i];
      WithoutKeeps(front);
      HasKeySnoc(front, last, "#");
      HasKeySnoc(WithoutListSize(front), last, "#");
      forall k
        ensures HasKey(d, k) <==> HasKey(front, k) || last.0 == k
        ensures HasKey(WithoutListSize(front) + [last], k) <==> HasKey(WithoutListSize(front), k) || last.0 == k
      {
        HasKeySnoc(front, last, k);
        HasKeySnoc(WithoutListSize(front), last, k);
      }
      assert WithoutListSize(front) + [] == WithoutListSize(front);
      if DistinctKeys(d) {
        assert DistinctKeys(front) && !HasKey(front, last.0);
        Apartness(WithoutListSize(front), last);
      }
    }
  }

  /** A dictionary, flattened among any other attributes and parsed, comes back after an entry for its size, exactly
      when it has no key `#` or `%`. */
  lemma DictRoundTripIff(attributes: seq<Field>, random: string -> nat, k: nat)
    requires PlainKeys(attributes) && k < |attributes| && attributes[k].value.Dict?
    requires DistinctKeys(attributes[k].value.entries)
    ensures var entries := attributes[k].value.entries;
            ParseDict(Flat(attributes, "", random), attributes[k].key) == [("%", Size(|entries|))] + entries <==>
            !HasKey(entries, "#") && !HasKey(entries, "%")
  {
    hide Flat, FlatAttribute, ParsePrefix, Select, WithoutListSize, Update, HasKey;
    var key, entries := attributes[k].key, attributes[k].value.entries;
    FlatDict(key, entries, random);
    SelectFlat(attributes, random, k);
    ParseSelected(Flat(attributes, "", random), key);
    ParseEntries(Sized(entries), key);
    WithoutKeeps(Sized(entries));
    UpdateNothing(WithoutListSize(Sized(entries)));
    SizedIff(entries);
  }

  lemma SizedIff(entries: Dictionary)
    requires DistinctKeys(entries) && DistinctKeys(WithoutListSize(Sized(entries)))
    ensures WithoutListSize(Sized(entries)) == [("%", Size(|entries|))] + entries <==>
            !HasKey(entries, "#") && !HasKey(entries, "%")
  {
    hide WithoutListSize, Update;
    var size := [("%", Size(|entries|))];
    var all := size + entries;
    WithoutKeeps(Sized(entries));
    UpdateDistinct(size, entries);
    if i :| 0 <= i < |entries| && entries[i].0 == "#" {
      assert all[i + 1].0 == "#";
      assert HasKey(all, "#");
    } else if i :| 0 <= i < |entries| && entries[i].0 == "%" {
      assert all[0].0 == "%" && all[i + 1].0 == "%";
      assert !DistinctKeys(all);
    } else {
      UpdateNew(size, entries);
      assert !HasKey(size, "#");
    }
  }
}
