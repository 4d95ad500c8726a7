/**
 * The values a facility row carries and the JSON-shaped documents the feed is
 * made of. A raw row is a Python dict from column name to scalar; an output
 * document is a tree of objects (whose keys keep their insertion order, as
 * Python dicts do), arrays and scalar leaves.
 */
module FeedValues {
  import Decimal

  datatype Option<T> = None | Some(value: T)

  /** A scalar column value. Floating-point numbers (latitude, longitude) are
      never computed with, only copied, so a `Number` carries nothing but the
      text Python prints for it. */
  datatype Value =
    | Null
    | Int(i: int)
    | Str(s: string)
    | Number(text: string)

  datatype Json =
    | Leaf(v: Value)
    | Obj(fields: seq<Field>)
    | Arr(items: seq<Json>)

  datatype Field = Field(key: string, value: Json)

  /** A raw facility row as the database cursor hands it over. */
  type Row = map<string, Value>

  /** `row.get(key)`: an absent key reads as `None`. */
  function Get(row: Row, key: string): Value
  {
    if key in row then row[key] else Null
  }

  /** Python's `str(v)`, as used inside an f-string. */
  function Show(v: Value): string
  {
    match v
    case Null => "None"
    case Int(i) => Decimal.IntToString(i)
    case Str(s) => s
    case Number(text) => text
  }

  /** The keys of an object, in order; empty for anything else. */
  function Keys(j: Json): (ks: seq<string>)
    ensures j.Obj? ==> |ks| == |j.fields|
    ensures j.Obj? ==> forall i :: 0 <= i < |ks| ==> ks[i] == j.fields[i].key
  {
    if j.Obj? then FieldKeys(j.fields) else []
  }

  function FieldKeys(fields: seq<Field>): (ks: seq<string>)
    ensures |ks| == |fields|
    ensures forall i :: 0 <= i < |ks| ==> ks[i] == fields[i].key
  {
    if fields == [] then [] else [fields[0].key] + FieldKeys(fields[1..])
  }

  /** `obj[key]` on an object: the value under the first field with that key. */
  function Member(fields: seq<Field>, key: string): (r: Option<Json>)
    ensures r.None? <==> key !in FieldKeys(fields)
  {
    if fields == [] then None
    else if fields[0].key == key then Some(fields[0].value)
    else Member(fields[1..], key)
  }

  /** With distinct keys before position `i`, looking up the key at `i`
      finds the value at `i`. */
  lemma {:induction false} MemberAt(fields: seq<Field>, i: nat)
    requires i < |fields|
    requires forall j :: 0 <= j < i ==> fields[j].key != fields[i].key
    ensures Member(fields, fields[i].key) == Some(fields[i].value)
  {
    if i > 0 {
      MemberAt(fields[1..], i - 1);
    }
  }

  /** Follows a path of keys down nested objects. */
  function At(j: Json, path: seq<string>): Option<Json>
    decreases |path|
  {
    if path == [] then Some(j)
    else if !j.Obj? then None
    else match Member(j.fields, path[0])
      case None => None
      case Some(child) => At(child, path[1..])
  }
}
