/** Decoded documents as the collectors receive them: a BSON command result
    from MongoDB or a parsed JSON body from Dropwizard, tagged by the Python
    type each value has once decoded. */
module Document {

  datatype Option<T> = None | Some(value: T)

  /** A Python value inside a decoded document. `Long` is Python 2's
      arbitrary-precision integer, kept apart from `Int` because the
      MongoDB collector converts it to float before publishing. */
  datatype Value =
    | Null
    | Bool(b: bool)
    | Int(i: int)
    | Long(l: int)
    | Float(f: real)
    | Str(s: string)
    | List(items: seq<Value>)
    | Doc(fields: seq<(string, Value)>)

  /** The entries of a dict, in iteration order. */
  type Fields = seq<(string, Value)>

  /** `key in d and d[key]`: the value stored under `key`, if any. */
  function Lookup(fields: Fields, key: string): (r: Option<Value>)
    ensures r.None? <==> forall i :: 0 <= i < |fields| ==> fields[i].0 != key
    ensures r.Some? ==> exists i :: 0 <= i < |fields| && fields[i] == (key, r.value)
  {
    if |fields| == 0 then None
    else if fields[0].0 == key then Some(fields[0].1)
    else Lookup(fields[1..], key)
  }

  /** `d.get(key, default)`. */
  function GetOr(fields: Fields, key: string, default: Value): Value
  {
    match Lookup(fields, key)
    case Some(v) => v
    case None => default
  }

  /** The keys of a dict, in iteration order. */
  function Keys(fields: Fields): (ks: seq<string>)
    ensures |ks| == |fields|
    ensures forall i :: 0 <= i < |fields| ==> ks[i] == fields[i].0
  {
    seq(|fields|, i requires 0 <= i < |fields| => fields[i].0)
  }

  /** A Python dict never holds the same key twice. */
  predicate DistinctKeys(fields: Fields)
  {
    forall i, j :: 0 <= i < j < |fields| ==> fields[i].0 != fields[j].0
  }

  /** Every dict nested anywhere in `v` has distinct keys, as every decoded
      document does. */
  predicate WellFormed(v: Value)
  {
    match v
    case Doc(fields) =>
      DistinctKeys(fields) && forall i :: 0 <= i < |fields| ==> WellFormed(fields[i].1)
    case List(items) => forall i :: 0 <= i < |items| ==> WellFormed(items[i])
    case _ => true
  }

  lemma {:induction false} LookupDistinct(fields: Fields, i: nat)
    requires DistinctKeys(fields) && i < |fields|
    ensures Lookup(fields, fields[i].0) == Some(fields[i].1)
  {
    if i > 0 {
      assert fields[0].0 != fields[i].0;
      assert DistinctKeys(fields[1..]) by {
        forall a, b | 0 <= a < b < |fields[1..]|
          ensures fields[1..][a].0 != fields[1..][b].0
        {
          assert fields[1..][a] == fields[a + 1] && fields[1..][b] == fields[b + 1];
        }
      }
      LookupDistinct(fields[1..], i - 1);
      assert fields[1..][i - 1] == fields[i];
    }
  }

  /** Python's `bool(v)`. */
  predicate Truthy(v: Value)
  {
    match v
    case Null => false
    case Bool(b) => b
    case Int(i) => i != 0
    case Long(l) => l != 0
    case Float(f) => f != 0.0
    case Str(s) => s != ""
    case List(items) => items != []
    case Doc(fields) => fields != []
  }

  /** Values Python arithmetic accepts as numbers (`bool` is a subclass of `int`). */
  predicate IsNumber(v: Value)
  {
    v.Bool? || v.Int? || v.Long? || v.Float?
  }

  /** The exact numeric value of a number; IEEE rounding is not modelled. */
  function AsReal(v: Value): (r: real)
    requires IsNumber(v)
    ensures r == 0.0 <==> !Truthy(v)
  {
    match v
    case Bool(b) => if b then 1.0 else 0.0
    case Int(i) => i as real
    case Long(l) => l as real
    case Float(f) => f
  }

  /** The keys that `for k in v: ... v[k] ...` visits, or None when that loop
      raises. A dict yields its keys. An empty list or string yields nothing.
      A non-empty list or string raises on some element before anything is
      published: indexing it with an element, or joining the element into a
      dotted name, fails. Numbers, booleans and None are not iterable. */
  function IterKeys(v: Value): (r: Option<seq<string>>)
    ensures v.Doc? ==> r == Some(Keys(v.fields))
    ensures r.Some? && !v.Doc? ==> r.value == [] && !Truthy(v)
  {
    match v
    case Doc(fields) => Some(Keys(fields))
    case Str(s) => if s == "" then Some([]) else None
    case List(items) => if items == [] then Some([]) else None
    case _ => None
  }

  /** `v[k0][k1]...`: None when some step meets a missing key (KeyError) or a
      value that is not a dict (TypeError). */
  function At(v: Value, path: seq<string>): Option<Value>
    decreases |path|
  {
    if path == [] then Some(v)
    else if !v.Doc? then None
    else match Lookup(v.fields, path[0])
      case None => None
      case Some(child) => At(child, path[1..])
  }
}
