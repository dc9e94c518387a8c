/** The MongoDB collector's recursive numeric flattener: `_publish_metrics`
    and `_publish_dict_with_prefix` (src/collectors/mongodb/mongodb.py,
    lines 192-210), as functions from a document to the events they publish. */
module MongoWalk {
  import opened Document
  import opened Dotted
  import opened Sink

  /** The value `_publish_metrics` passes to the publisher for a leaf: ints,
      booleans and floats as they are, longs converted to float; None for
      the leaves it skips (strings, lists, None). */
  function Published(v: Value): (r: Option<Value>)
    ensures r.Some? <==> IsNumber(v)
    ensures v.Long? ==> r == Some(Float(v.l as real))
    ensures IsNumber(v) && !v.Long? ==> r == Some(v)
  {
    match v
    case Bool(_) => Some(v)
    case Int(_) => Some(v)
    case Float(_) => Some(v)
    case Long(l) => Some(Float(l as real))
    case _ => None
  }

  /** The publishing done once `value = data[key]` is known, with
      `keys = prev_keys + [key]`. A dict recurses into its children WITHOUT
      passing `publishfn` on, so everything below it is a plain `publish`. */
  function LeafEvents(keys: seq<string>, v: Value, p: Publisher): seq<Event>
    decreases v, 2, 0
  {
    if v.Doc? then DictEvents(keys, v.fields, |v.fields|, Plain)
    else match Published(v)
      case Some(x) => [Emit(p, Join(keys, '.'), x)]
      case None => []
  }

  /** `for key in fields[..n]: _publish_metrics(prefix, key, fields, publishfn)`. */
  function DictEvents(prefix: seq<string>, fields: Fields, n: nat, p: Publisher): seq<Event>
    requires n <= |fields|
    decreases Doc(fields), 1, n
  {
    if n == 0 then []
    else DictEvents(prefix, fields, n - 1, p) + MetricEvents(prefix, fields[n - 1].0, fields, p)
  }

  /** `_publish_metrics(prev_keys, key, data, publishfn)` on a dict `data`:
      nothing when `key` is absent. */
  function MetricEvents(prevKeys: seq<string>, key: string, fields: Fields, p: Publisher): seq<Event>
    decreases Doc(fields), 0, 0
  {
    match Lookup(fields, key)
    case None => []
    case Some(v) => LeafEvents(prevKeys + [key], v, p)
  }

  /** `_publish_metrics` on any `data`. None when Python raises: `key in data`
      fails on numbers, booleans and None, and `data[key]` fails on a string
      holding `key` or a list holding it. Otherwise a list or string does
      not hold `key` and nothing is published. */
  function MetricOutcome(prevKeys: seq<string>, key: string, data: Value, p: Publisher): (r: Option<seq<Event>>)
    ensures data.Doc? ==> r == Some(MetricEvents(prevKeys, key, data.fields, p))
    ensures r.Some? && !data.Doc? ==> r.value == []
  {
    match data
    case Doc(fields) => Some(MetricEvents(prevKeys, key, fields, p))
    case List(items) => if Str(key) in items then None else Some([])
    case Str(s) => if IsSubstring(key, s) then None else Some([])
    case _ => None
  }

  /** Python's `key in s` for strings. */
  predicate IsSubstring(key: string, s: string)
    decreases |s|
  {
    key <= s || (|s| > 0 && IsSubstring(key, s[1..]))
  }

  /** `_publish_dict_with_prefix(section, prefix, publishfn)` on any section
      value; None when the loop raises (see `IterKeys`). */
  function SectionEvents(section: Value, prefix: seq<string>, p: Publisher): (r: Option<seq<Event>>)
    ensures r.Some? <==> IterKeys(section).Some?
    ensures section.Doc? ==> r == Some(DictEvents(prefix, section.fields, |section.fields|, p))
    ensures r.Some? && !section.Doc? ==> r.value == []
  {
    if section.Doc? then Some(DictEvents(prefix, section.fields, |section.fields|, p))
    else if IterKeys(section).Some? then Some([])
    else None
  }

  // ---------------------------------------------------------------------
  // Reference definition: the numeric leaves of a document, by path.

  /** Every numeric leaf reachable from `v` through dicts, with its path
      below `v` and the value published for it, in iteration order. */
  function Leaves(v: Value): seq<(seq<string>, Value)>
    decreases v, 1, 0
  {
    if v.Doc? then FieldLeaves(v.fields, |v.fields|)
    else match Published(v)
      case Some(x) => [([], x)]
      case None => []
  }

  function FieldLeaves(fields: Fields, n: nat): seq<(seq<string>, Value)>
    requires n <= |fields|
    decreases Doc(fields), 0, n
  {
    if n == 0 then []
    else FieldLeaves(fields, n - 1) + Under(fields[n - 1].0, Leaves(fields[n - 1].1))
  }

  /** The same leaves seen one level up, below `key`. */
  function Under(key: string, leaves: seq<(seq<string>, Value)>): (r: seq<(seq<string>, Value)>)
    ensures |r| == |leaves|
    ensures forall i :: 0 <= i < |r| ==> r[i] == ([key] + leaves[i].0, leaves[i].1)
  {
    seq(|leaves|, i requires 0 <= i < |leaves| => ([key] + leaves[i].0, leaves[i].1))
  }

  /** The events for a list of leaves below `prefix`: a leaf at depth
      `depth` goes through `p`, every deeper one through plain `publish`. */
  function LeafEventsOf(prefix: seq<string>, leaves: seq<(seq<string>, Value)>, p: Publisher, depth: nat): (r: seq<Event>)
    ensures |r| == |leaves|
  {
    seq(|leaves|, i requires 0 <= i < |leaves| =>
      Emit(if |leaves[i].0| == depth then p else Plain, Join(prefix + leaves[i].0, '.'), leaves[i].1))
  }

  lemma FieldLeavesDeep(fields: Fields, n: nat)
    requires n <= |fields|
    ensures forall i :: 0 <= i < |FieldLeaves(fields, n)| ==> |FieldLeaves(fields, n)[i].0| >= 1
  {
    if n > 0 {
      FieldLeavesDeep(fields, n - 1);
    }
  }

  lemma LeafEventsOfConcat(prefix: seq<string>, a: seq<(seq<string>, Value)>, b: seq<(seq<string>, Value)>, p: Publisher, depth: nat)
    ensures LeafEventsOf(prefix, a + b, p, depth) == LeafEventsOf(prefix, a, p, depth) + LeafEventsOf(prefix, b, p, depth)
  {
  }

  lemma LeafEventsOfUnder(prefix: seq<string>, key: string, leaves: seq<(seq<string>, Value)>, p: Publisher)
    ensures LeafEventsOf(prefix + [key], leaves, p, 0) == LeafEventsOf(prefix, Under(key, leaves), p, 1)
  {
    var l := LeafEventsOf(prefix + [key], leaves, p, 0);
    var r := LeafEventsOf(prefix, Under(key, leaves), p, 1);
    forall i | 0 <= i < |leaves| ensures l[i] == r[i] {
      assert prefix + [key] + leaves[i].0 == prefix + ([key] + leaves[i].0);
    }
  }

  /** The flattener publishes exactly one event per numeric leaf, in
      iteration order, named by the leaf's dotted path; a leaf directly
      under the starting key goes through `p`, every deeper leaf through
      plain `publish`. */
  lemma {:induction false} LeafEventsFlatten(keys: seq<string>, v: Value, p: Publisher)
    requires WellFormed(v)
    ensures LeafEvents(keys, v, p) == LeafEventsOf(keys, Leaves(v), p, 0)
    decreases v, 2, 0
  {
    if v.Doc? {
      var fl := FieldLeaves(v.fields, |v.fields|);
      DictEventsFlatten(keys, v.fields, |v.fields|, Plain);
      FieldLeavesDeep(v.fields, |v.fields|);
      var l := LeafEventsOf(keys, fl, Plain, 1);
      var r := LeafEventsOf(keys, fl, p, 0);
      forall i | 0 <= i < |fl| ensures l[i] == r[i] {
        assert |fl[i].0| != 0;
      }
      assert l == r;
    } else {
      assert keys + [] == keys;
    }
  }

  /** The same for `_publish_dict_with_prefix`: one event per numeric leaf
      below the dict; leaves at the first level go through `p`. */
  lemma {:induction false} DictEventsFlatten(prefix: seq<string>, fields: Fields, n: nat, p: Publisher)
    requires n <= |fields|
    requires WellFormed(Doc(fields))
    ensures DictEvents(prefix, fields, n, p) == LeafEventsOf(prefix, FieldLeaves(fields, n), p, 1)
    decreases Doc(fields), 1, n
  {
    if n > 0 {
      var key := fields[n - 1].0;
      var v := fields[n - 1].1;
      DictEventsFlatten(prefix, fields, n - 1, p);
      LookupDistinct(fields, n - 1);
      assert MetricEvents(prefix, key, fields, p) == LeafEvents(prefix + [key], v, p);
      LeafEventsFlatten(prefix + [key], v, p);
      LeafEventsOfUnder(prefix, key, Leaves(v), p);
      LeafEventsOfConcat(prefix, FieldLeaves(fields, n - 1), Under(key, Leaves(v)), p, 1);
    }
  }

  // ---------------------------------------------------------------------
  // Naming: every event lies below the prefix it was published under.

  /** Every event published for `keys` is named `'.'.join(keys)` or a
      dotted extension of it. */
  lemma {:induction false} LeafEventsBelow(keys: seq<string>, v: Value, p: Publisher)
    requires |keys| >= 1
    ensures forall e :: e in LeafEvents(keys, v, p) ==> Join(keys, '.') <= e.name
    decreases v, 2, 0
  {
    if v.Doc? {
      DictEventsBelow(keys, v.fields, |v.fields|, Plain);
    }
  }

  /** Every event `_publish_dict_with_prefix` publishes under a non-empty
      prefix is named `'.'.join(prefix) + '.' + ...`. */
  lemma {:induction false} DictEventsBelow(prefix: seq<string>, fields: Fields, n: nat, p: Publisher)
    requires n <= |fields|
    requires |prefix| >= 1
    ensures forall e :: e in DictEvents(prefix, fields, n, p) ==> Join(prefix, '.') + "." <= e.name
    decreases Doc(fields), 1, n
  {
    if n > 0 {
      DictEventsBelow(prefix, fields, n - 1, p);
      var key := fields[n - 1].0;
      match Lookup(fields, key)
      case None =>
      case Some(v) =>
        LeafEventsBelow(prefix + [key], v, p);
        JoinConcat(prefix, [key], '.');
        assert Join(prefix + [key], '.') == Join(prefix, '.') + "." + key;
    }
  }
}
