/** The MongoDB collector's derived metrics, `_publish_transformed`
    (src/collectors/mongodb/mongodb.py, lines 111-190): the counter
    sub-trees, `get_dotted_value`, `compute_interval` over the
    `__totals` state, `publish_percent` and the per-database lock times.
    Each is a function of its inputs and of the totals before the call;
    `MongoCollector.MongoDBCollector` runs them against its fields. */
module MongoDerive {
  import opened Document
  import opened Dotted
  import opened Sink
  import opened MongoWalk

  // ---------------------------------------------------------------------
  // get_dotted_value (lines 131-137)

  /** `get_dotted_value(data, path)`: None when `.get` is applied to a value
      that is not a dict (AttributeError). */
  function DottedValue(data: Value, path: string): Option<Value>
  {
    Descend(data, Split(path, '.'))
  }

  /** The loop of `get_dotted_value` over the remaining segments: each step
      is `data = data.get(seg, {})`, and a falsy result returns 0 at once. */
  function Descend(data: Value, segs: seq<string>): Option<Value>
    decreases |segs|
  {
    if segs == [] then Some(data)
    else if !data.Doc? then None
    else
      var next := GetOr(data.fields, segs[0], Doc([]));
      if !Truthy(next) then Some(Int(0)) else Descend(next, segs[1..])
  }

  /** Every step of the path exists and holds a truthy value. */
  predicate TruthyPath(data: Value, segs: seq<string>)
    decreases |segs|
  {
    segs == [] ||
    (data.Doc? && match Lookup(data.fields, segs[0])
      case None => false
      case Some(next) => Truthy(next) && TruthyPath(next, segs[1..]))
  }

  /** What `get_dotted_value` returns is either the literal 0 or a truthy
      value found at exactly that path. */
  lemma {:induction false} DescendResult(data: Value, segs: seq<string>)
    requires |segs| >= 1
    ensures match Descend(data, segs)
      case None => true
      case Some(v) => v == Int(0) || (Truthy(v) && At(data, segs) == Some(v))
  {
    if data.Doc? {
      var next := GetOr(data.fields, segs[0], Doc([]));
      if Truthy(next) {
        assert Lookup(data.fields, segs[0]) == Some(next);
        if |segs| > 1 {
          DescendResult(next, segs[1..]);
        }
      }
    }
  }

  /** When every step exists and is truthy, `get_dotted_value` returns the
      value at the path. */
  lemma {:induction false} DescendFound(data: Value, segs: seq<string>)
    requires TruthyPath(data, segs)
    ensures Descend(data, segs) == At(data, segs)
  {
    if segs != [] {
      DescendFound(Lookup(data.fields, segs[0]).value, segs[1..]);
    }
  }

  /** `get_dotted_value` returns 0 exactly when it does not raise and some
      step of the path is missing or falsy: a path that exists and is truthy
      all the way never reads as 0. */
  lemma {:induction false} DescendZero(data: Value, segs: seq<string>)
    requires |segs| >= 1
    ensures Descend(data, segs) == Some(Int(0)) <==> Descend(data, segs).Some? && !TruthyPath(data, segs)
    decreases |segs|
  {
    if data.Doc? {
      var next := GetOr(data.fields, segs[0], Doc([]));
      if Truthy(next) {
        assert Lookup(data.fields, segs[0]) == Some(next);
        if |segs| > 1 {
          DescendZero(next, segs[1..]);
        } else {
          assert segs[1..] == [];
        }
      }
    }
  }

  /** When a dict lacks the first segment, `get_dotted_value` returns 0. */
  lemma MissingFirstSegmentIsZero(fields: Fields, first: string, rest: seq<string>)
    requires Lookup(fields, first).None?
    ensures Descend(Doc(fields), [first] + rest) == Some(Int(0))
  {
  }

  /** A path that starts with `.` has `''` as its first segment, so in a dict
      without an empty key `get_dotted_value` returns 0 whatever follows. */
  lemma {:induction false} LeadingDotIsZero(fields: Fields, rest: string)
    requires Lookup(fields, "").None?
    ensures DottedValue(Doc(fields), "." + rest) == Some(Int(0))
  {
    assert ("." + rest)[0] == '.' && ("." + rest)[1..] == rest;
    assert Split("." + rest, '.') == [""] + Split(rest, '.');
    MissingFirstSegmentIsZero(fields, "", Split(rest, '.'));
  }

  /** The dotted names `_publish_transformed` passes to `get_dotted_value`,
      as the segments `split('.')` gives for them (see `NamedPathSplits`). */
  const LockTimePath: seq<string> := ["globalLock", "lockTime"]
  const TotalTimePath: seq<string> := ["globalLock", "totalTime"]
  const MissesPath: seq<string> := ["indexCounters", "btree", "misses"]
  const AccessesPath: seq<string> := ["indexCounters", "btree", "accesses"]
  const UptimePath: seq<string> := ["uptimeMillis"]

  /** For a name made of dot-free segments, `get_dotted_value` walks
      exactly those segments. */
  lemma NamedPathSplits(data: Value, segs: seq<string>)
    requires |segs| >= 1
    requires forall i :: 0 <= i < |segs| ==> '.' !in segs[i]
    ensures DottedValue(data, Join(segs, '.')) == Descend(data, segs)
  {
    SplitJoin(segs, '.');
  }

  // ---------------------------------------------------------------------
  // compute_interval (lines 139-145): the counter-state tracker

  /** One update of `__totals` under `key` with the current total: the
      interval is the current total minus the stored one, or 0 on first
      sight; the current total replaces the stored one. */
  function Track(totals: map<string, real>, key: string, current: real): (real, map<string, real>)
  {
    var last := if key in totals then totals[key] else current;
    (current - last, totals[key := current])
  }

  /** Feeding the totals of successive cycles for one key: the intervals
      reported, and the state afterwards. */
  function TrackAll(totals: map<string, real>, key: string, currents: seq<real>): (seq<real>, map<string, real>)
    decreases |currents|
  {
    if currents == [] then ([], totals)
    else
      var (d, t) := Track(totals, key, currents[0]);
      var (ds, t') := TrackAll(t, key, currents[1..]);
      ([d] + ds, t')
  }

  function Sum(xs: seq<real>): real
  {
    if xs == [] then 0.0 else xs[0] + Sum(xs[1..])
  }

  /** Over any run of cycles the reported intervals add up to the change of
      the total since it was first stored, resets included, and the state
      ends holding the last total. */
  lemma {:induction false} IntervalsTelescope(totals: map<string, real>, key: string, currents: seq<real>)
    requires |currents| >= 1
    decreases |currents|
    ensures var (ds, t) := TrackAll(totals, key, currents);
      && |ds| == |currents|
      && Sum(ds) == currents[|currents| - 1] - (if key in totals then totals[key] else currents[0])
      && t == totals[key := currents[|currents| - 1]]
  {
    var (d, t1) := Track(totals, key, currents[0]);
    if |currents| > 1 {
      IntervalsTelescope(t1, key, currents[1..]);
      var (ds, t') := TrackAll(t1, key, currents[1..]);
      assert t1[key := currents[|currents| - 1]] == totals[key := currents[|currents| - 1]];
    }
  }

  /** Updates for two different keys do not interfere: either order gives
      the same intervals and the same state. */
  lemma TrackIndependent(totals: map<string, real>, k1: string, v1: real, k2: string, v2: real)
    requires k1 != k2
    ensures var (a1, s1) := Track(totals, k1, v1);
      var (a2, s2) := Track(s1, k2, v2);
      var (b2, u1) := Track(totals, k2, v2);
      var (b1, u2) := Track(u1, k1, v1);
      a1 == b1 && a2 == b2 && s2 == u2
  {
  }

  /** A counter seen first at `a` reports 0; seen next at a smaller `b` (a
      restart on the server) it reports `b - a`, which is negative: the
      interval is never clamped. */
  lemma ResetReportsNegative(totals: map<string, real>, key: string, a: real, b: real)
    requires key !in totals
    requires b < a
    ensures var (d1, t1) := Track(totals, key, a);
      var (d2, t2) := Track(t1, key, b);
      d1 == 0.0 && d2 == b - a && d2 < 0.0 && t2[key] == b
  {
  }

  /** The `__totals` key for the dotted name `total`:
      `'.'.join(base_prefix) + '.' + total_name`. */
  function TotalKey(prefix: seq<string>, total: seq<string>): string
  {
    Join(prefix, '.') + "." + Join(total, '.')
  }

  /** `compute_interval(data, total_name)` with `total` the segments of
      `total_name`: the interval and the new totals, or None when Python
      raises (a non-dict step inside `get_dotted_value`, or a subtraction
      on a value that is not a number), in which case nothing is stored. */
  function IntervalSpec(totals: map<string, real>, prefix: seq<string>, data: Fields, total: seq<string>): Option<(real, map<string, real>)>
  {
    match Descend(Doc(data), total)
    case None => None
    case Some(v) =>
      if !IsNumber(v) then None
      else Some(Track(totals, TotalKey(prefix, total), AsReal(v)))
  }

  // ---------------------------------------------------------------------
  // publish_percent (lines 147-156)

  /** `publish_percent(value_name, total_name, data)`, with `value` and
      `total` the segments of the two names: one counter event and the new
      totals, or None when Python raises. Strings are not converted: see
      README. */
  function PercentSpec(totals: map<string, real>, prefix: seq<string>, data: Fields, value: seq<string>, total: seq<string>): Option<(Event, map<string, real>)>
  {
    match Descend(Doc(data), value)
    case None => None
    case Some(x) =>
      if !IsNumber(x) then None
      else match IntervalSpec(totals, prefix, data, total)
        case None => None
        case Some((interval, totals')) =>
          Some((Counter(Join(prefix, '.') + ".percent." + Join(value, '.'), Float(100.0 * AsReal(x)),
                        interval != 0.0, Some(interval)), totals'))
  }

  /** The percent counter: its name, its value (100 times the dotted value),
      `time_delta` exactly when the interval is non-zero, and the one
      `__totals` entry it updates. */
  lemma {:induction false} PercentFacts(totals: map<string, real>, prefix: seq<string>, data: Fields, value: seq<string>, total: seq<string>)
    requires PercentSpec(totals, prefix, data, value, total).Some?
    ensures var (e, t) := PercentSpec(totals, prefix, data, value, total).value;
      var x := Descend(Doc(data), value).value;
      var cur := AsReal(Descend(Doc(data), total).value);
      var key := TotalKey(prefix, total);
      && e.Counter?
      && e.name == Join(prefix, '.') + ".percent." + Join(value, '.')
      && e.value == Float(100.0 * AsReal(x))
      && e.interval == Some(if key in totals then cur - totals[key] else 0.0)
      && (e.timeDelta <==> e.interval.value != 0.0)
      && t == totals[key := cur]
  {
  }

  // ---------------------------------------------------------------------
  // The counter sub-trees (lines 113-129)

  /** Chains one more step after `run`: a step runs only when `run`
      completed, and a step that raises (None) stops the chain. */
  function Then(run: Emission, step: Option<seq<Event>>): (r: Emission)
    ensures r.completed <==> run.completed && step.Some?
    ensures !run.completed ==> r == run
    ensures run.completed && step.None? ==> r.events == run.events
    ensures run.completed && step.Some? ==> r.events == run.events + step.value
  {
    if !run.completed then run
    else match step
      case None => Emission(run.events, false)
      case Some(es) => Emission(run.events + es, true)
  }

  /** The five counter republications, in source order. */
  function CounterSections(prefix: seq<string>, data: Fields): Emission
  {
    var start := Emission([], true);
    var s1 := Then(start, SectionEvents(GetOr(data, "opcounters", Doc([])), prefix + ["opcounters_per_sec"], AsCounter));
    var s2 := Then(s1, SectionEvents(GetOr(data, "opcountersRepl", Doc([])), prefix + ["opcountersRepl_per_sec"], AsCounter));
    var s3 := Then(s2, MetricOutcome(prefix + ["backgroundFlushing_per_sec"], "flushes", GetOr(data, "backgroundFlushing", Doc([])), AsCounter));
    var s4 := Then(s3, SectionEvents(GetOr(data, "network", Doc([])), prefix + ["network_per_sec"], AsCounter));
    Then(s4, MetricOutcome(prefix + ["extra_info_per_sec"], "page_faults", GetOr(data, "extra_info", Doc([])), AsCounter))
  }

  /** A serverStatus without any of the five sections republishes nothing. */
  lemma MissingSectionsPublishNothing(prefix: seq<string>, data: Fields)
    requires forall k :: k in ["opcounters", "opcountersRepl", "backgroundFlushing", "network", "extra_info"] ==> Lookup(data, k).None?
    ensures CounterSections(prefix, data) == Emission([], true)
  {
    assert Lookup(data, "opcounters").None? && Lookup(data, "opcountersRepl").None?;
    assert Lookup(data, "backgroundFlushing").None? && Lookup(data, "network").None?;
    assert Lookup(data, "extra_info").None?;
  }

  /** What `_publish_dict_with_prefix(section, prefix + [name],
      self.publish_counter)` means in terms of the section's numeric
      leaves: one event per leaf, first-level leaves as counters and
      deeper ones as plain `publish`; nothing for a section that is not a
      dict. */
  function SectionLeafEvents(prefix: seq<string>, name: string, section: Value): seq<Event>
  {
    if section.Doc? then LeafEventsOf(prefix + [name], FieldLeaves(section.fields, |section.fields|), AsCounter, 1)
    else []
  }

  /** What `_publish_metrics(prefix + [name], key, section,
      self.publish_counter)` means: the numeric leaves below `section[key]`
      and below no other child of `section`. */
  function TakenLeafEvents(prefix: seq<string>, name: string, key: string, section: Value): seq<Event>
  {
    if section.Doc? then
      match Lookup(section.fields, key)
      case None => []
      case Some(v) => LeafEventsOf(prefix + [name] + [key], Leaves(v), AsCounter, 0)
    else []
  }

  lemma GetOrWellFormed(fields: Fields, key: string)
    requires WellFormed(Doc(fields))
    ensures WellFormed(GetOr(fields, key, Doc([])))
  {
  }

  /** A republished section publishes its numeric leaves. */
  lemma SectionLeaves(prefix: seq<string>, name: string, section: Value)
    requires WellFormed(section)
    ensures SectionEvents(section, prefix + [name], AsCounter).Some? ==>
      SectionEvents(section, prefix + [name], AsCounter).value == SectionLeafEvents(prefix, name, section)
  {
    if section.Doc? {
      DictEventsFlatten(prefix + [name], section.fields, |section.fields|, AsCounter);
    }
  }

  /** A single republished key (`flushes` of `backgroundFlushing` at lines
      119-122, `page_faults` of `extra_info` at lines 126-129) publishes
      the numeric leaves below that key, and every one of them is named
      below `'.'.join(prefix + [name, key])`: no other child of the section
      is published. */
  lemma TakenLeaves(prefix: seq<string>, name: string, key: string, section: Value)
    requires WellFormed(section)
    ensures MetricOutcome(prefix + [name], key, section, AsCounter).Some? ==>
      MetricOutcome(prefix + [name], key, section, AsCounter).value == TakenLeafEvents(prefix, name, key, section)
    ensures forall e :: e in TakenLeafEvents(prefix, name, key, section) ==> Join(prefix + [name] + [key], '.') <= e.name
  {
    if section.Doc? {
      match Lookup(section.fields, key)
      case None =>
      case Some(v) =>
        var i :| 0 <= i < |section.fields| && section.fields[i] == (key, v);
        assert WellFormed(section.fields[i].1);
        LeafEventsFlatten(prefix + [name] + [key], v, AsCounter);
        LeafEventsBelow(prefix + [name] + [key], v, AsCounter);
    }
  }

  /** Lines 113-129 when none of them raises: the leaves of `opcounters`
      and `opcountersRepl`, those below `backgroundFlushing.flushes`, the
      leaves of `network` and those below `extra_info.page_faults`, in
      that order, each under its `_per_sec` name. */
  lemma CounterSectionsLeaves(prefix: seq<string>, data: Fields)
    requires WellFormed(Doc(data))
    ensures CounterSections(prefix, data).completed ==>
      CounterSections(prefix, data).events ==
        SectionLeafEvents(prefix, "opcounters_per_sec", GetOr(data, "opcounters", Doc([])))
        + SectionLeafEvents(prefix, "opcountersRepl_per_sec", GetOr(data, "opcountersRepl", Doc([])))
        + TakenLeafEvents(prefix, "backgroundFlushing_per_sec", "flushes", GetOr(data, "backgroundFlushing", Doc([])))
        + SectionLeafEvents(prefix, "network_per_sec", GetOr(data, "network", Doc([])))
        + TakenLeafEvents(prefix, "extra_info_per_sec", "page_faults", GetOr(data, "extra_info", Doc([])))
  {
    var o1, o2 := GetOr(data, "opcounters", Doc([])), GetOr(data, "opcountersRepl", Doc([]));
    var o3, o4 := GetOr(data, "backgroundFlushing", Doc([])), GetOr(data, "network", Doc([]));
    var o5 := GetOr(data, "extra_info", Doc([]));
    GetOrWellFormed(data, "opcounters");
    GetOrWellFormed(data, "opcountersRepl");
    GetOrWellFormed(data, "backgroundFlushing");
    GetOrWellFormed(data, "network");
    GetOrWellFormed(data, "extra_info");
    SectionLeaves(prefix, "opcounters_per_sec", o1);
    SectionLeaves(prefix, "opcountersRepl_per_sec", o2);
    TakenLeaves(prefix, "backgroundFlushing_per_sec", "flushes", o3);
    SectionLeaves(prefix, "network_per_sec", o4);
    TakenLeaves(prefix, "extra_info_per_sec", "page_faults", o5);
    ThenFive(SectionEvents(o1, prefix + ["opcounters_per_sec"], AsCounter),
             SectionEvents(o2, prefix + ["opcountersRepl_per_sec"], AsCounter),
             MetricOutcome(prefix + ["backgroundFlushing_per_sec"], "flushes", o3, AsCounter),
             SectionEvents(o4, prefix + ["network_per_sec"], AsCounter),
             MetricOutcome(prefix + ["extra_info_per_sec"], "page_faults", o5, AsCounter),
             SectionLeafEvents(prefix, "opcounters_per_sec", o1),
             SectionLeafEvents(prefix, "opcountersRepl_per_sec", o2),
             TakenLeafEvents(prefix, "backgroundFlushing_per_sec", "flushes", o3),
             SectionLeafEvents(prefix, "network_per_sec", o4),
             TakenLeafEvents(prefix, "extra_info_per_sec", "page_faults", o5));
  }

  /** Five chained steps that all complete publish what the five steps
      mean, in order. */
  lemma ThenFive(a: Option<seq<Event>>, b: Option<seq<Event>>, c: Option<seq<Event>>, d: Option<seq<Event>>, e: Option<seq<Event>>,
                 ma: seq<Event>, mb: seq<Event>, mc: seq<Event>, md: seq<Event>, me: seq<Event>)
    requires a.Some? ==> a.value == ma
    requires b.Some? ==> b.value == mb
    requires c.Some? ==> c.value == mc
    requires d.Some? ==> d.value == md
    requires e.Some? ==> e.value == me
    ensures var r := Then(Then(Then(Then(Then(Emission([], true), a), b), c), d), e);
      r.completed ==> r.events == ma + mb + mc + md + me
  {
    assert [] + ma == ma;
  }

  // ---------------------------------------------------------------------
  // Lock aggregation (lines 158-190)

  /** `d[key] = v`: replaces the value in place, or appends a new key. */
  function Put(fields: Fields, key: string, v: Value): (r: Fields)
    ensures Lookup(r, key) == Some(v)
    ensures forall k :: k != key ==> Lookup(r, k) == Lookup(fields, k)
  {
    if |fields| == 0 then [(key, v)]
    else if fields[0].0 == key then [(key, v)] + fields[1..]
    else [fields[0]] + Put(fields[1..], key, v)
  }

  /** `del d[key]`. */
  function Remove(fields: Fields, key: string): (r: Fields)
    ensures Lookup(r, key).None?
    ensures forall k :: k != key ==> Lookup(r, k) == Lookup(fields, k)
  {
    if |fields| == 0 then []
    else if fields[0].0 == key then Remove(fields[1..], key)
    else [fields[0]] + Remove(fields[1..], key)
  }

  lemma DistinctCons(x: (string, Value), rest: Fields)
    ensures DistinctKeys([x] + rest) <==> Lookup(rest, x.0).None? && DistinctKeys(rest)
  {
    var s := [x] + rest;
    if Lookup(rest, x.0).None? && DistinctKeys(rest) {
      forall i, j | 0 <= i < j < |s| ensures s[i].0 != s[j].0 {
        if i > 0 { assert s[i] == rest[i - 1]; }
        assert s[j] == rest[j - 1];
      }
    }
    if DistinctKeys(s) {
      forall i, j | 0 <= i < j < |rest| ensures rest[i].0 != rest[j].0 {
        assert rest[i] == s[i + 1] && rest[j] == s[j + 1];
      }
      forall i | 0 <= i < |rest| ensures rest[i].0 != x.0 {
        assert s[0] == x && rest[i] == s[i + 1];
        assert s[0].0 != s[i + 1].0;
      }
    }
  }

  lemma {:induction false} PutDistinct(fields: Fields, key: string, v: Value)
    requires DistinctKeys(fields)
    ensures DistinctKeys(Put(fields, key, v))
  {
    if |fields| > 0 {
      DistinctCons(fields[0], fields[1..]);
      assert fields == [fields[0]] + fields[1..];
      if fields[0].0 == key {
        DistinctCons((key, v), fields[1..]);
      } else {
        PutDistinct(fields[1..], key, v);
        DistinctCons(fields[0], Put(fields[1..], key, v));
      }
    }
  }

  lemma {:induction false} RemoveDistinct(fields: Fields, key: string)
    requires DistinctKeys(fields)
    ensures DistinctKeys(Remove(fields, key))
  {
    if |fields| > 0 {
      DistinctCons(fields[0], fields[1..]);
      assert fields == [fields[0]] + fields[1..];
      RemoveDistinct(fields[1..], key);
      if fields[0].0 != key {
        DistinctCons(fields[0], Remove(fields[1..], key));
      }
    }
  }

  /** Lines 160-162: the aggregate entry `.` moves to `_global_`. */
  function RenameGlobal(fields: Fields): (r: Fields)
    ensures Lookup(r, ".").None?
    ensures DistinctKeys(fields) ==> DistinctKeys(r)
    ensures DistinctKeys(fields) && Lookup(fields, ".").Some? ==> Lookup(r, "_global_") == Lookup(fields, ".")
    ensures DistinctKeys(fields) ==> forall k :: k != "." && k != "_global_" ==> Lookup(r, k) == Lookup(fields, k)
    ensures Lookup(fields, ".").None? ==> r == fields
  {
    match Lookup(fields, ".")
    case None => fields
    case Some(v) =>
      var r := Remove(Put(fields, "_global_", v), ".");
      assert DistinctKeys(fields) ==> DistinctKeys(r) by {
        if DistinctKeys(fields) {
          PutDistinct(fields, "_global_", v);
          RemoveDistinct(Put(fields, "_global_", v), ".");
        }
      }
      r
  }

  /** `float(a + b) / 10` on two `get_dotted_value` results, or None when
      Python raises. Strings are not added: see README. */
  function LockTime(a: Option<Value>, b: Option<Value>): Option<real>
  {
    if a.None? || b.None? then None
    else if IsNumber(a.value) && IsNumber(b.value) then Some((AsReal(a.value) + AsReal(b.value)) / 10.0)
    else None
  }

  const TimeLocked: string := "timeLockedMicros"

  /** `'%s.timeLockedMicros.<field>' % db`. */
  function LockName(db: string, field: string): string
  {
    db + "." + TimeLocked + "." + field
  }

  /** The segments `get_dotted_value` walks for such a name. */
  function LockKey(db: string, field: string): seq<string>
  {
    Split(db, '.') + [TimeLocked, field]
  }

  /** `LockName(db, field).split('.')` is `LockKey(db, field)`, and with a
      leading `.` (the read total's second name, line 174) an empty segment
      comes first. */
  lemma LockNameSplit(db: string, field: string)
    requires '.' !in field
    ensures Split(LockName(db, field), '.') == LockKey(db, field)
    ensures Split("." + LockName(db, field), '.') == [""] + LockKey(db, field)
  {
    var tail := TimeLocked + ['.'] + field;
    assert LockName(db, field) == db + ['.'] + tail;
    SplitConcat(db, tail, '.');
    SplitAtSep(TimeLocked, field, '.');
    SplitWithoutSep(field, '.');
    var dotted := "." + LockName(db, field);
    assert dotted[0] == '.' && dotted[1..] == LockName(db, field);
  }

  /** The body of `for db_name in locks` for one name: `get_dotted_value`
      at `LockName(db, "r")` and, exactly as written (line 174), at
      `'.' + LockName(db, "R")` for the read total; at the `w` and `W`
      names for the write total. The names appear here as the segments
      they split into (`LockNameSplit`). */
  function LockStep(keyPrefix: string, interval: real, locks: Fields, db: string, dbFilter: string -> bool): Emission
  {
    if !dbFilter(db) then Emission([], true)
    else
      var lockData := Doc(locks);
      match LockTime(Descend(lockData, LockKey(db, "r")), Descend(lockData, [""] + LockKey(db, "R")))
      case None => Emission([], false)
      case Some(read) =>
        var readEvents :=
          if read != 0.0 then [Counter(keyPrefix + "locks." + db + ".read", Float(read), interval != 0.0, Some(interval))]
          else [];
        match LockTime(Descend(lockData, LockKey(db, "w")), Descend(lockData, LockKey(db, "W")))
        case None => Emission(readEvents, false)
        case Some(write) =>
          var writeEvents :=
            if write != 0.0 then [Counter(keyPrefix + "locks." + db + ".write", Float(write), interval != 0.0, Some(interval))]
            else [];
          Emission(readEvents + writeEvents, true)
  }

  /** The body of the loop as a function of the name, for the settings at
      hand. */
  function LockStepAt(keyPrefix: string, interval: real, locks: Fields, dbFilter: string -> bool): string -> Emission
  {
    db => LockStep(keyPrefix, interval, locks, db, dbFilter)
  }

  /** The loop over the first `n` names of `locks`, running `step` for each
      name until one raises. */
  function LocksRun(locks: Fields, step: string -> Emission, n: nat): Emission
    requires n <= |locks|
  {
    if n == 0 then Emission([], true)
    else
      var prev := LocksRun(locks, step, n - 1);
      if !prev.completed then prev
      else
        var next := step(locks[n - 1].0);
        Emission(prev.events + next.events, next.completed)
  }

  /** Once a name raises, the loop is over: the names after it change
      nothing. */
  lemma {:induction false} LocksRunStops(locks: Fields, step: string -> Emission, k: nat, n: nat)
    requires k <= n <= |locks|
    requires !LocksRun(locks, step, k).completed
    ensures LocksRun(locks, step, n) == LocksRun(locks, step, k)
  {
    if n > k {
      LocksRunStops(locks, step, k, n - 1);
    }
  }

  /** A name that fails the databases filter publishes nothing; one that
      passes publishes at most a read and a write counter, each only when
      non-zero, each named below `key_prefix + 'locks.' + db`. */
  lemma {:induction false} LockStepFacts(keyPrefix: string, interval: real, locks: Fields, db: string, dbFilter: string -> bool)
    ensures var s := LockStep(keyPrefix, interval, locks, db, dbFilter);
      && (!dbFilter(db) ==> s == Emission([], true))
      && |s.events| <= 2
      && (forall e :: e in s.events ==>
            e.Counter? && e.value.Float? && e.value.f != 0.0 && e.interval == Some(interval)
            && (e.timeDelta <==> interval != 0.0)
            && (e.name == keyPrefix + "locks." + db + ".read" || e.name == keyPrefix + "locks." + db + ".write"))
  {
  }

  /** For a name the databases filter lets through: the read total is
      `float(r + R) / 10` and the write total `float(w + W) / 10`, with the
      four read by `get_dotted_value` at the dotted names of lines 169-185;
      each is published, as a counter carrying the uptime interval, exactly
      when it is non-zero, the read before the write. The step completes
      exactly when both totals are numbers; the write is not looked at when
      the read raises. */
  lemma LockStepValues(keyPrefix: string, interval: real, locks: Fields, db: string, dbFilter: string -> bool)
    requires dbFilter(db)
    ensures var s := LockStep(keyPrefix, interval, locks, db, dbFilter);
      var r := DottedValue(Doc(locks), LockName(db, "r"));
      var rr := DottedValue(Doc(locks), "." + LockName(db, "R"));
      var w := DottedValue(Doc(locks), LockName(db, "w"));
      var ww := DottedValue(Doc(locks), LockName(db, "W"));
      var readOk := r.Some? && rr.Some? && IsNumber(r.value) && IsNumber(rr.value);
      var writeOk := w.Some? && ww.Some? && IsNumber(w.value) && IsNumber(ww.value);
      var read := if readOk then (AsReal(r.value) + AsReal(rr.value)) / 10.0 else 0.0;
      var write := if writeOk then (AsReal(w.value) + AsReal(ww.value)) / 10.0 else 0.0;
      && (s.completed <==> readOk && writeOk)
      && |s.events| == (if readOk && read != 0.0 then 1 else 0) + (if readOk && writeOk && write != 0.0 then 1 else 0)
      && (readOk && read != 0.0 ==>
            s.events[0] == Counter(keyPrefix + "locks." + db + ".read", Float(read), interval != 0.0, Some(interval)))
      && (readOk && writeOk && write != 0.0 ==>
            s.events[|s.events| - 1] == Counter(keyPrefix + "locks." + db + ".write", Float(write), interval != 0.0, Some(interval)))
  {
    LockNameSplit(db, "r");
    LockNameSplit(db, "R");
    LockNameSplit(db, "w");
    LockNameSplit(db, "W");
  }

  /** Every lock counter is named below `key_prefix + 'locks.'` after a
      name that passes the databases filter. */
  lemma {:induction false} LocksRunNames(keyPrefix: string, interval: real, locks: Fields, dbFilter: string -> bool, n: nat)
    requires n <= |locks|
    ensures forall e :: e in LocksRun(locks, LockStepAt(keyPrefix, interval, locks, dbFilter), n).events ==>
      exists j :: 0 <= j < n && dbFilter(locks[j].0) &&
        (e.name == keyPrefix + "locks." + locks[j].0 + ".read" || e.name == keyPrefix + "locks." + locks[j].0 + ".write")
  {
    if n > 0 {
      LocksRunNames(keyPrefix, interval, locks, dbFilter, n - 1);
      LockStepFacts(keyPrefix, interval, locks, locks[n - 1].0, dbFilter);
    }
  }

  /** Whether `locks` raises before `compute_interval` runs: `'.' in locks`
      fails on a number or a boolean, and the rename of `.` fails on a
      string or a list that holds it. */
  predicate LocksRaiseEarly(locks: Value)
  {
    match locks
    case Doc(_) => false
    case Str(s) => '.' in s
    case List(items) => Str(".") in items
    case _ => true
  }

  /** `for db_name in locks` on a truthy `locks` that got past the rename.
      On a string or a list the loop raises at the first name the filter
      lets through (`.get` on a string or list), and a list element that is
      not a string already raises in the filter. */
  function LocksLoop(keyPrefix: string, interval: real, locks: Value, dbFilter: string -> bool): Emission
  {
    match locks
    case Doc(fields) =>
      var renamed := RenameGlobal(fields);
      LocksRun(renamed, LockStepAt(keyPrefix, interval, renamed, dbFilter), |renamed|)
    case Str(s) => Emission([], forall i :: 0 <= i < |s| ==> !dbFilter([s[i]]))
    case List(items) => Emission([], forall i :: 0 <= i < |items| ==> items[i].Str? && !dbFilter(items[i].s))
    case _ => Emission([], false)
  }

  /** Lines 158-190 in full: the events and the new totals. `uptimeMillis`
      is tracked once, before the loop. */
  function LocksSpec(totals: map<string, real>, prefix: seq<string>, data: Fields, dbFilter: string -> bool): (Emission, map<string, real>)
  {
    var locks := GetOr(data, "locks", Null);
    if !Truthy(locks) then (Emission([], true), totals)
    else if LocksRaiseEarly(locks) then (Emission([], false), totals)
    else match IntervalSpec(totals, prefix, data, UptimePath)
      case None => (Emission([], false), totals)
      case Some((interval, totals')) => (LocksLoop(Join(prefix, '.') + ".percent.", interval, locks, dbFilter), totals')
  }

  // ---------------------------------------------------------------------
  // _publish_transformed (lines 111-190)

  /** Lines 146-190: the two percent counters, then the lock aggregation. */
  function DerivedSpec(totals: map<string, real>, prefix: seq<string>, data: Fields, dbFilter: string -> bool): (Emission, map<string, real>)
  {
    match PercentSpec(totals, prefix, data, LockTimePath, TotalTimePath)
    case None => (Emission([], false), totals)
    case Some((lockPercent, t1)) =>
      match PercentSpec(t1, prefix, data, MissesPath, AccessesPath)
      case None => (Emission([lockPercent], false), t1)
      case Some((missPercent, t2)) =>
        var (locks, t3) := LocksSpec(t2, prefix, data, dbFilter);
        (Emission([lockPercent, missPercent] + locks.events, locks.completed), t3)
  }

  /** The events `_publish_transformed` publishes and the totals it leaves:
      nothing touches `__totals` before the counter sub-trees are done. */
  function TransformedSpec(totals: map<string, real>, prefix: seq<string>, data: Fields, dbFilter: string -> bool): (Emission, map<string, real>)
  {
    var counters := CounterSections(prefix, data);
    if !counters.completed then (counters, totals)
    else
      var (derived, t) := DerivedSpec(totals, prefix, data, dbFilter);
      (Emission(counters.events + derived.events, derived.completed), t)
  }

  /** `after` keeps every entry of `before` and differs from it at most on
      the keys in `touched`. */
  ghost predicate KeepsTotals(before: map<string, real>, after: map<string, real>, touched: set<string>)
  {
    && (forall k :: k in before ==> k in after)
    && (forall k :: k !in touched && k in after ==> k in before && after[k] == before[k])
  }

  lemma KeepsTotalsTrans(t1: map<string, real>, t2: map<string, real>, t3: map<string, real>, a: set<string>, b: set<string>)
    requires KeepsTotals(t1, t2, a) && KeepsTotals(t2, t3, b)
    ensures KeepsTotals(t1, t3, a + b)
  {
  }

  lemma IntervalKeeps(totals: map<string, real>, prefix: seq<string>, data: Fields, total: seq<string>)
    requires IntervalSpec(totals, prefix, data, total).Some?
    ensures KeepsTotals(totals, IntervalSpec(totals, prefix, data, total).value.1, {TotalKey(prefix, total)})
  {
  }

  /** The totals `publish_percent` leaves are those of its `compute_interval`. */
  lemma PercentTotals(totals: map<string, real>, prefix: seq<string>, data: Fields, value: seq<string>, total: seq<string>)
    requires PercentSpec(totals, prefix, data, value, total).Some?
    ensures IntervalSpec(totals, prefix, data, total).Some?
    ensures PercentSpec(totals, prefix, data, value, total).value.1 == IntervalSpec(totals, prefix, data, total).value.1
  {
  }

  lemma LocksKeeps(totals: map<string, real>, prefix: seq<string>, data: Fields, dbFilter: string -> bool)
    ensures KeepsTotals(totals, LocksSpec(totals, prefix, data, dbFilter).1, {TotalKey(prefix, UptimePath)})
  {
    if IntervalSpec(totals, prefix, data, UptimePath).Some? {
      IntervalKeeps(totals, prefix, data, UptimePath);
    }
  }

  /** The totals the percent counters and the lock aggregation leave: a
      stage that raises keeps the totals its predecessors left, and each
      stage that completes adds its own `compute_interval` update. */
  lemma DerivedTotals(totals: map<string, real>, prefix: seq<string>, data: Fields, dbFilter: string -> bool)
    ensures var t := DerivedSpec(totals, prefix, data, dbFilter).1;
      var p1 := PercentSpec(totals, prefix, data, LockTimePath, TotalTimePath);
      && (p1.None? ==> t == totals)
      && (p1.Some? ==> IntervalSpec(totals, prefix, data, TotalTimePath).Some?)
      && (p1.Some? ==>
            var t1 := IntervalSpec(totals, prefix, data, TotalTimePath).value.1;
            var p2 := PercentSpec(t1, prefix, data, MissesPath, AccessesPath);
            && (p2.None? ==> t == t1)
            && (p2.Some? ==> IntervalSpec(t1, prefix, data, AccessesPath).Some?)
            && (p2.Some? ==> t == LocksSpec(IntervalSpec(t1, prefix, data, AccessesPath).value.1, prefix, data, dbFilter).1))
  {
    var p1 := PercentSpec(totals, prefix, data, LockTimePath, TotalTimePath);
    if p1.Some? {
      PercentTotals(totals, prefix, data, LockTimePath, TotalTimePath);
      var t1 := p1.value.1;
      if PercentSpec(t1, prefix, data, MissesPath, AccessesPath).Some? {
        PercentTotals(t1, prefix, data, MissesPath, AccessesPath);
      }
    }
  }

  /** `_publish_transformed` touches at most three `__totals` entries: the
      two percent denominators and `uptimeMillis`; every other entry is
      kept, and no entry is ever deleted. */
  lemma TransformedTotalsFrame(totals: map<string, real>, prefix: seq<string>, data: Fields, dbFilter: string -> bool)
    ensures KeepsTotals(totals, TransformedSpec(totals, prefix, data, dbFilter).1,
                        {TotalKey(prefix, TotalTimePath), TotalKey(prefix, AccessesPath),
                         TotalKey(prefix, UptimePath)})
  {
    var k1, k2, k3 := TotalKey(prefix, TotalTimePath), TotalKey(prefix, AccessesPath), TotalKey(prefix, UptimePath);
    var all := {k1, k2, k3};
    var t := DerivedSpec(totals, prefix, data, dbFilter).1;
    DerivedTotals(totals, prefix, data, dbFilter);
    var p1 := PercentSpec(totals, prefix, data, LockTimePath, TotalTimePath);
    if p1.Some? {
      PercentTotals(totals, prefix, data, LockTimePath, TotalTimePath);
      IntervalKeeps(totals, prefix, data, TotalTimePath);
      var t1 := p1.value.1;
      var p2 := PercentSpec(t1, prefix, data, MissesPath, AccessesPath);
      if p2.Some? {
        PercentTotals(t1, prefix, data, MissesPath, AccessesPath);
        IntervalKeeps(t1, prefix, data, AccessesPath);
        var t2 := p2.value.1;
        LocksKeeps(t2, prefix, data, dbFilter);
        KeepsTotalsTrans(totals, t1, t2, {k1}, {k2});
        KeepsTotalsTrans(totals, t2, LocksSpec(t2, prefix, data, dbFilter).1, {k1} + {k2}, {k3});
        assert {k1} + {k2} + {k3} == all;
      }
      assert KeepsTotals(totals, t1, all);
    }
    assert KeepsTotals(totals, t, all);
  }
}
