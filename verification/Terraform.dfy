/** Terraform state: nested attributes are flattened to dotted keys, and lists are read back from the dotted keys. */
module Terraform {
  import opened Resources
  import opened Arbitration
  import opened Decimals

  /** A value that is not flattened further; the flattening adds the sizes of lists and dictionaries. */
  datatype Value = Text(text: string) | Other(json: string) | Size(size: nat)

  /** What the attributes of a resource may hold: a value, a dictionary (of which only one level is flattened), or a
      list of texts and of further attributes. */
  datatype Attribute = Leaf(value: Value) | Dict(entries: Dictionary) | List(items: seq<Item>)

  datatype Item = Word(text: string) | Nested(attributes: seq<Field>)

  datatype Field = Field(key: string, value: Attribute)

  /** A Python dictionary: keys keep the order in which they were first inserted. */
  type Dictionary = seq<(string, Value)>

  ghost predicate DistinctKeys(d: Dictionary) {
    forall i, j :: 0 <= i < j < |d| ==> d[i].0 != d[j].0
  }

  /** Python: `d[key] = value`. */
  function Put(d: Dictionary, key: string, value: Value): Dictionary {
    if d == [] then [(key, value)]
    else if Last(d).0 == key then Front(d) + [(key, value)]
    else if HasKey(Front(d), key) then Put(Front(d), key, value) + [Last(d)]
    else d + [(key, value)]
  }

  predicate HasKey(d: Dictionary, key: string) {
    exists i :: 0 <= i < |d| && d[i].0 == key
  }

  /** Python: `d.update(more)`. */
  function Update(d: Dictionary, more: Dictionary): Dictionary {
    if more == [] then d else Put(Update(d, Front(more)), Last(more).0, Last(more).1)
  }

  /* ----- Flattening ----- */

  /** What one item of a list is flattened to. A text gets a random number for a key, given by `random`. */
  function FlatItem(item: Item, prefix: string, random: string -> nat): Dictionary
    decreases item, 1
  {
    match item
    case Word(text) => [(prefix + Decimal(random(prefix)), Text(text))]
    case Nested(attributes) => Flat(attributes, prefix, random)
  }

  function FlatItems(items: seq<Item>, prefix: string, random: string -> nat): Dictionary
    decreases items, 0
  {
    if items == [] then []
    else
      Update(FlatItems(Front(items), prefix, random),
             FlatItem(Last(items), prefix + Decimal(|items| - 1) + ".", random))
  }

  /** What one attribute is flattened to. */
  function FlatAttribute(key: string, value: Attribute, prefix: string, random: string -> nat): Dictionary
    decreases value, 1
  {
    match value
    case Leaf(v) => [(prefix + key, v)]
    case Dict(entries) => Update([(prefix + key + ".%", Size(|entries|))], Prefixed(entries, prefix + key + "."))
    case List(items) =>
      Update(if items == [] then [] else [(prefix + key + ".#", Size(|items|))],
             FlatItems(items, prefix + key + ".", random))
  }

  function Prefixed(entries: Dictionary, prefix: string): Dictionary {
    if entries == [] then []
    else Put(Prefixed(Front(entries), prefix), prefix + Last(entries).0, Last(entries).1)
  }

  function Flat(attributes: seq<Field>, prefix: string, random: string -> nat): Dictionary
    decreases attributes, 0
  {
    if attributes == [] then []
    else
      Update(Flat(Front(attributes), prefix, random),
             FlatAttribute(Last(attributes).key, Last(attributes).value, prefix, random))
  }

  /* ----- Parsing ----- */

  /** The parts of a key before and after its first dot. */
  function SplitOnce(s: string): Option<(string, string)> {
    if s == "" then None
    else if s[0] == '.' then Some(("", s[1..]))
    else
      match SplitOnce(s[1..])
      case None => None
      case Some(parts) => Some(([s[0]] + parts.0, parts.1))
  }

  predicate Under(key: string, prefix: string) {
    SplitOnce(key).Some? && SplitOnce(key).value.0 == prefix && SplitOnce(key).value.1 != "#"
  }

  /** The entries under a prefix, without the prefix; the size of a list is not among them. */
  function ParsePrefix(source: Dictionary, prefix: string): Dictionary {
    if source == [] then []
    else
      ParsePrefix(Front(source), prefix) +
      if Under(Last(source).0, prefix) then [(SplitOnce(Last(source).0).value.1, Last(source).1)] else []
  }

  function Values(d: Dictionary): seq<Value> {
    if d == [] then [] else Values(Front(d)) + [Last(d).1]
  }

  function ParseList(source: Dictionary, prefix: string): seq<Value> {
    Values(ParsePrefix(source, prefix))
  }

  type Groups = seq<(string, Dictionary)>

  predicate HasGroup(groups: Groups, index: string) {
    exists i :: 0 <= i < |groups| && groups[i].0 == index
  }

  /** Python: `attrs[index][key] = value` on a dictionary of dictionaries that creates missing ones. */
  function PutIn(groups: Groups, index: string, key: string, value: Value): Groups {
    if groups == [] then [(index, [(key, value)])]
    else if Last(groups).0 == index then Front(groups) + [(index, Put(Last(groups).1, key, value))]
    else if HasGroup(Front(groups), index) then PutIn(Front(groups), index, key, value) + [Last(groups)]
    else groups + [(index, [(key, value)])]
  }

  /** The groups of entries by the part of their keys before the first dot; there is none if a key has no dot. */
  function Grouped(entries: Dictionary): Option<Groups> {
    if entries == [] then Some([])
    else
      match (Grouped(Front(entries)), SplitOnce(Last(entries).0))
      case (Some(groups), Some(parts)) => Some(PutIn(groups, parts.0, parts.1, Last(entries).1))
      case _ => None
  }

  function Contents(groups: Groups): seq<Dictionary> {
    if groups == [] then [] else Contents(Front(groups)) + [Last(groups).1]
  }

  function ParseAttrList(source: Dictionary, prefix: string): Option<seq<Dictionary>> {
    match Grouped(ParsePrefix(source, prefix))
    case None => None
    case Some(groups) => Some(Contents(groups))
  }
}
