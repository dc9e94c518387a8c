/** The MongoDB collector as the object the source defines
    (src/collectors/mongodb/mongodb.py): `__totals` persists between
    collection cycles, and every publish call appends to `published`.
    Each method is proved against the function of `MongoWalk`,
    `MongoDerive` or `MongoCollect` that specifies it. A method returns
    `false` (or an `Outcome` other than `Finished`) where the source
    raises; what it published before that stays published. */
module MongoCollector {
  import opened Document
  import opened Dotted
  import opened Sink
  import opened MongoWalk
  import opened MongoDerive
  import opened MongoCollect

  /** Python's `key in s` on strings: scans for a position where `key` starts. */
  method ContainsKey(key: string, s: string) returns (found: bool)
    ensures found == IsSubstring(key, s)
  {
    var i := 0;
    while i <= |s|
      invariant 0 <= i <= |s| + 1
      invariant IsSubstring(key, s) <==> i <= |s| && IsSubstring(key, s[i..])
    {
      if key <= s[i..] {
        return true;
      }
      if i < |s| {
        assert s[i..][1..] == s[i + 1..];
      }
      i := i + 1;
    }
    return false;
  }

  /** The loop of `get_dotted_value` (lines 131-137) over the segments of
      the dotted name: each step is `data = data.get(seg, {})`, and a falsy
      result returns 0 at once. None where `.get` meets a value that is not
      a dict. */
  method GetDottedValue(data: Value, segs: seq<string>) returns (r: Option<Value>)
    ensures r == Descend(data, segs)
  {
    var cur := data;
    var i := 0;
    while i < |segs|
      invariant 0 <= i <= |segs|
      invariant Descend(data, segs) == Descend(cur, segs[i..])
    {
      if !cur.Doc? {
        return None;
      }
      cur := GetOr(cur.fields, segs[i], Doc([]));
      if !Truthy(cur) {
        return Some(Int(0));
      }
      assert segs[i..][1..] == segs[i + 1..];
      i := i + 1;
    }
    return Some(cur);
  }

  /** The lock loop over a string: each character is a name, and `.get`
      on the string raises at the first one the filter lets through. */
  method NoCharPasses(s: string, dbFilter: string -> bool) returns (ok: bool)
    ensures ok <==> forall i :: 0 <= i < |s| ==> !dbFilter([s[i]])
  {
    var i := 0;
    while i < |s|
      invariant 0 <= i <= |s|
      invariant forall j :: 0 <= j < i ==> !dbFilter([s[j]])
    {
      if dbFilter([s[i]]) {
        return false;
      }
      i := i + 1;
    }
    return true;
  }

  /** The lock loop over a list: an element that is not a string raises in
      the filter, and `.get` on the list raises at the first name the
      filter lets through. */
  method NoItemPasses(items: seq<Value>, dbFilter: string -> bool) returns (ok: bool)
    ensures ok <==> forall i :: 0 <= i < |items| ==> items[i].Str? && !dbFilter(items[i].s)
  {
    var i := 0;
    while i < |items|
      invariant 0 <= i <= |items|
      invariant forall j :: 0 <= j < i ==> items[j].Str? && !dbFilter(items[j].s)
    {
      if !items[i].Str? || dbFilter(items[i].s) {
        return false;
      }
      i := i + 1;
    }
    return true;
  }

  class MongoDBCollector {
    /** `self.__totals`: the last cumulative total seen under each key. */
    var totals: map<string, real>
    /** Every `publish` / `publish_counter` call made so far, in order. */
    var published: seq<Event>

    /** Lines 31-33: the totals start empty. */
    constructor ()
      ensures totals == map[] && published == []
    {
      totals := map[];
      published := [];
    }

    /** `_publish_metrics(prev_keys, key, data, publishfn)` (lines 196-210). */
    method PublishMetrics(prevKeys: seq<string>, key: string, data: Value, p: Publisher) returns (ok: bool)
      modifies this`published
      ensures ok <==> MetricOutcome(prevKeys, key, data, p).Some?
      ensures published == old(published) + (if ok then MetricOutcome(prevKeys, key, data, p).value else [])
      decreases data
    {
      if !data.Doc? {
        // `key in data` raises on scalars; a hit makes `data[key]` raise
        match data {
          case List(items) =>
            ok := Str(key) !in items;
          case Str(s) =>
            var hit := ContainsKey(key, s);
            ok := !hit;
          case _ =>
            ok := false;
        }
        return;
      }
      ok := true;
      var found := Lookup(data.fields, key);
      if found.None? {
        return;
      }
      var value := found.value;
      var keys := prevKeys + [key];
      assert MetricOutcome(prevKeys, key, data, p).value == LeafEvents(keys, value, p);
      if value.Doc? {
        // the recursive calls do not pass `publishfn` on
        var fields := value.fields;
        var i := 0;
        while i < |fields|
          invariant 0 <= i <= |fields|
          invariant published == old(published) + DictEvents(keys, fields, i, Plain)
        {
          var _ := PublishMetrics(keys, fields[i].0, value, Plain);
          AppendTwice(old(published), DictEvents(keys, fields, i, Plain), MetricEvents(keys, fields[i].0, fields, Plain));
          i := i + 1;
        }
      } else {
        match Published(value)
        case Some(x) =>
          published := published + [Emit(p, Join(keys, '.'), x)];
        case None =>
      }
    }

    /** `_publish_dict_with_prefix(dict, prefix, publishfn)` (lines 192-194). */
    method PublishDictWithPrefix(section: Value, prefix: seq<string>, p: Publisher) returns (ok: bool)
      modifies this`published
      ensures ok <==> SectionEvents(section, prefix, p).Some?
      ensures published == old(published) + (if ok then SectionEvents(section, prefix, p).value else [])
    {
      if !section.Doc? {
        // only an empty list or string gets through the loop
        match section {
          case Str(s) =>
            ok := s == "";
          case List(items) =>
            ok := items == [];
          case _ =>
            ok := false;
        }
        return;
      }
      var fields := section.fields;
      var i := 0;
      while i < |fields|
        invariant 0 <= i <= |fields|
        invariant published == old(published) + DictEvents(prefix, fields, i, p)
      {
        var _ := PublishMetrics(prefix, fields[i].0, section, p);
        AppendTwice(old(published), DictEvents(prefix, fields, i, p), MetricEvents(prefix, fields[i].0, fields, p));
        i := i + 1;
      }
      ok := true;
    }

    /** `compute_interval(data, total_name)` (lines 139-145), `total` being
        the segments of `total_name`. */
    method ComputeInterval(data: Fields, prefix: seq<string>, total: seq<string>) returns (ok: bool, interval: real)
      modifies this`totals
      ensures ok <==> IntervalSpec(old(totals), prefix, data, total).Some?
      ensures ok ==> interval == IntervalSpec(old(totals), prefix, data, total).value.0
      ensures totals == if ok then IntervalSpec(old(totals), prefix, data, total).value.1 else old(totals)
    {
      var current := GetDottedValue(Doc(data), total);
      if current.None? || !IsNumber(current.value) {
        return false, 0.0;
      }
      var cur := AsReal(current.value);
      var key := TotalKey(prefix, total);
      var last := if key in totals then totals[key] else cur;
      interval := cur - last;
      totals := totals[key := cur];
      ok := true;
    }

    /** `publish_percent(value_name, total_name, data)` (lines 147-152). */
    method PublishPercent(data: Fields, prefix: seq<string>, value: seq<string>, total: seq<string>) returns (ok: bool)
      modifies this
      ensures ok <==> PercentSpec(old(totals), prefix, data, value, total).Some?
      ensures published == old(published) + (if ok then [PercentSpec(old(totals), prefix, data, value, total).value.0] else [])
      ensures totals == if ok then PercentSpec(old(totals), prefix, data, value, total).value.1 else old(totals)
    {
      var x := GetDottedValue(Doc(data), value);
      if x.None? || !IsNumber(x.value) {
        return false;
      }
      var v := 100.0 * AsReal(x.value);
      var interval;
      ok, interval := ComputeInterval(data, prefix, total);
      if !ok {
        return;
      }
      var key := Join(prefix, '.') + ".percent." + Join(value, '.');
      published := published + [Counter(key, Float(v), interval != 0.0, Some(interval))];
    }

    /** The body of the lock loop (lines 168-190) for one database name. */
    method PublishLockStep(keyPrefix: string, interval: real, locks: Fields, db: string, dbFilter: string -> bool) returns (ok: bool)
      modifies this`published
      ensures ok == LockStep(keyPrefix, interval, locks, db, dbFilter).completed
      ensures published == old(published) + LockStep(keyPrefix, interval, locks, db, dbFilter).events
    {
      if !dbFilter(db) {
        return true;
      }
      LockNameSplit(db, "r");
      LockNameSplit(db, "R");
      LockNameSplit(db, "w");
      LockNameSplit(db, "W");
      var r := GetDottedValue(Doc(locks), Split(LockName(db, "r"), '.'));
      var rr := GetDottedValue(Doc(locks), Split("." + LockName(db, "R"), '.'));
      var read := LockTime(r, rr);
      if read.None? {
        return false;
      }
      if read.value != 0.0 {
        published := published + [Counter(keyPrefix + "locks." + db + ".read", Float(read.value), interval != 0.0, Some(interval))];
      }
      var w := GetDottedValue(Doc(locks), Split(LockName(db, "w"), '.'));
      var ww := GetDottedValue(Doc(locks), Split(LockName(db, "W"), '.'));
      var write := LockTime(w, ww);
      if write.None? {
        return false;
      }
      if write.value != 0.0 {
        published := published + [Counter(keyPrefix + "locks." + db + ".write", Float(write.value), interval != 0.0, Some(interval))];
      }
      ok := true;
    }

    /** The loop body for the name at position `n`, run after the names
        before it completed; when it raises, the loop's outcome is fixed. */
    method PublishLockAt(ghost base: seq<Event>, keyPrefix: string, interval: real, locks: Fields, dbFilter: string -> bool, n: nat)
      returns (ok: bool)
      requires n < |locks|
      requires LocksRun(locks, LockStepAt(keyPrefix, interval, locks, dbFilter), n).completed
      requires published == base + LocksRun(locks, LockStepAt(keyPrefix, interval, locks, dbFilter), n).events
      modifies this`published
      ensures ok == LocksRun(locks, LockStepAt(keyPrefix, interval, locks, dbFilter), n + 1).completed
      ensures published == base + LocksRun(locks, LockStepAt(keyPrefix, interval, locks, dbFilter), n + 1).events
      ensures !ok ==> (LocksRun(locks, LockStepAt(keyPrefix, interval, locks, dbFilter), |locks|)
                       == LocksRun(locks, LockStepAt(keyPrefix, interval, locks, dbFilter), n + 1))
    {
      ghost var before := LocksRun(locks, LockStepAt(keyPrefix, interval, locks, dbFilter), n);
      ghost var step := LockStep(keyPrefix, interval, locks, locks[n].0, dbFilter);
      ok := PublishLockStep(keyPrefix, interval, locks, locks[n].0, dbFilter);
      AppendTwice(base, before.events, step.events);
      if !ok {
        LocksRunStops(locks, LockStepAt(keyPrefix, interval, locks, dbFilter), n + 1, |locks|);
      }
    }

    /** The loop over a dict of per-database lock statistics. */
    method PublishLocksDict(keyPrefix: string, interval: real, locks: Fields, dbFilter: string -> bool) returns (ok: bool)
      modifies this`published
      ensures ok == LocksRun(locks, LockStepAt(keyPrefix, interval, locks, dbFilter), |locks|).completed
      ensures published == old(published) + LocksRun(locks, LockStepAt(keyPrefix, interval, locks, dbFilter), |locks|).events
    {
      var i := 0;
      while i < |locks|
        invariant 0 <= i <= |locks|
        invariant LocksRun(locks, LockStepAt(keyPrefix, interval, locks, dbFilter), i).completed
        invariant published == old(published) + LocksRun(locks, LockStepAt(keyPrefix, interval, locks, dbFilter), i).events
      {
        ok := PublishLockAt(old(published), keyPrefix, interval, locks, dbFilter, i);
        if !ok {
          return;
        }
        i := i + 1;
      }
      ok := true;
    }

    /** Lines 158-190: the lock aggregation. */
    method PublishLocks(data: Fields, prefix: seq<string>, dbFilter: string -> bool) returns (ok: bool)
      modifies this
      ensures ok == LocksSpec(old(totals), prefix, data, dbFilter).0.completed
      ensures published == old(published) + LocksSpec(old(totals), prefix, data, dbFilter).0.events
      ensures totals == LocksSpec(old(totals), prefix, data, dbFilter).1
    {
      var locks := GetOr(data, "locks", Null);
      if !Truthy(locks) {
        return true;
      }
      if LocksRaiseEarly(locks) {
        return false;
      }
      var keyPrefix := Join(prefix, '.') + ".percent.";
      var interval;
      ok, interval := ComputeInterval(data, prefix, UptimePath);
      if !ok {
        return;
      }
      ok := PublishLocksLoop(keyPrefix, interval, locks, dbFilter);
    }

    /** `for db_name in locks` (lines 166-190) on a truthy `locks` that got
        past the rename. */
    method PublishLocksLoop(keyPrefix: string, interval: real, locks: Value, dbFilter: string -> bool) returns (ok: bool)
      modifies this`published
      ensures ok == LocksLoop(keyPrefix, interval, locks, dbFilter).completed
      ensures published == old(published) + LocksLoop(keyPrefix, interval, locks, dbFilter).events
    {
      match locks {
        case Doc(fields) =>
          var renamed := RenameGlobal(fields);
          ok := PublishLocksDict(keyPrefix, interval, renamed, dbFilter);
        case Str(s) =>
          ok := NoCharPasses(s, dbFilter);
        case List(items) =>
          ok := NoItemPasses(items, dbFilter);
        case _ =>
          ok := false;
      }
    }

    /** One `_publish_dict_with_prefix(..., self.publish_counter)` of lines
        113-129, run only while no exception has been raised. */
    method ThenSection(ghost base: seq<Event>, ghost run: Emission, going: bool, section: Value, prefix: seq<string>)
      returns (ghost next: Emission, ok: bool)
      requires going == run.completed && published == base + run.events
      modifies this`published
      ensures next == Then(run, SectionEvents(section, prefix, AsCounter))
      ensures ok == next.completed && published == base + next.events
    {
      next := Then(run, SectionEvents(section, prefix, AsCounter));
      if going {
        ok := PublishDictWithPrefix(section, prefix, AsCounter);
      } else {
        ok := false;
      }
    }

    /** One `_publish_metrics(..., self.publish_counter)` of lines 113-129,
        run only while no exception has been raised. */
    method ThenMetric(ghost base: seq<Event>, ghost run: Emission, going: bool, prevKeys: seq<string>, key: string, data: Value)
      returns (ghost next: Emission, ok: bool)
      requires going == run.completed && published == base + run.events
      modifies this`published
      ensures next == Then(run, MetricOutcome(prevKeys, key, data, AsCounter))
      ensures ok == next.completed && published == base + next.events
    {
      next := Then(run, MetricOutcome(prevKeys, key, data, AsCounter));
      if going {
        ok := PublishMetrics(prevKeys, key, data, AsCounter);
      } else {
        ok := false;
      }
    }

    /** Lines 113-129: the five counter republications. */
    method PublishCounterSections(data: Fields, prefix: seq<string>) returns (ok: bool)
      modifies this`published
      ensures ok == CounterSections(prefix, data).completed
      ensures published == old(published) + CounterSections(prefix, data).events
    {
      ghost var base := published;
      ghost var run := Emission([], true);
      ok := true;
      run, ok := ThenSection(base, run, ok, GetOr(data, "opcounters", Doc([])), prefix + ["opcounters_per_sec"]);
      run, ok := ThenSection(base, run, ok, GetOr(data, "opcountersRepl", Doc([])), prefix + ["opcountersRepl_per_sec"]);
      run, ok := ThenMetric(base, run, ok, prefix + ["backgroundFlushing_per_sec"], "flushes", GetOr(data, "backgroundFlushing", Doc([])));
      run, ok := ThenSection(base, run, ok, GetOr(data, "network", Doc([])), prefix + ["network_per_sec"]);
      run, ok := ThenMetric(base, run, ok, prefix + ["extra_info_per_sec"], "page_faults", GetOr(data, "extra_info", Doc([])));
    }

    /** Lines 146-156: the lock-time percentage, then the index-miss
        percentage; nothing after a call that raises. */
    method PublishPercents(data: Fields, prefix: seq<string>) returns (ok: bool)
      modifies this
      ensures var p1 := PercentSpec(old(totals), prefix, data, LockTimePath, TotalTimePath);
        && (p1.None? ==> !ok && published == old(published) && totals == old(totals))
        && (p1.Some? ==>
              var p2 := PercentSpec(p1.value.1, prefix, data, MissesPath, AccessesPath);
              && (ok <==> p2.Some?)
              && (p2.None? ==> published == old(published) + [p1.value.0] && totals == p1.value.1)
              && (p2.Some? ==> published == old(published) + [p1.value.0, p2.value.0] && totals == p2.value.1))
    {
      ok := PublishPercent(data, prefix, LockTimePath, TotalTimePath);
      if !ok {
        return;
      }
      ghost var lockPercent := PercentSpec(old(totals), prefix, data, LockTimePath, TotalTimePath).value.0;
      ok := PublishPercent(data, prefix, MissesPath, AccessesPath);
      if ok {
        AppendTwice(old(published), [lockPercent], [published[|published| - 1]]);
      }
    }

    /** Lines 146-190: the two percent counters, then the locks. */
    method PublishDerived(data: Fields, prefix: seq<string>, dbFilter: string -> bool) returns (ok: bool)
      modifies this
      ensures ok == DerivedSpec(old(totals), prefix, data, dbFilter).0.completed
      ensures published == old(published) + DerivedSpec(old(totals), prefix, data, dbFilter).0.events
      ensures totals == DerivedSpec(old(totals), prefix, data, dbFilter).1
    {
      ok := PublishPercents(data, prefix);
      if !ok {
        return;
      }
      ghost var percents := published[|old(published)|..];
      ghost var t2 := totals;
      ok := PublishLocks(data, prefix, dbFilter);
      AppendTwice(old(published), percents, LocksSpec(t2, prefix, data, dbFilter).0.events);
    }

    /** `_publish_transformed(data, base_prefix)` (lines 111-190). */
    method PublishTransformed(data: Fields, prefix: seq<string>, dbFilter: string -> bool) returns (ok: bool)
      modifies this
      ensures ok == TransformedSpec(old(totals), prefix, data, dbFilter).0.completed
      ensures published == old(published) + TransformedSpec(old(totals), prefix, data, dbFilter).0.events
      ensures totals == TransformedSpec(old(totals), prefix, data, dbFilter).1
    {
      ok := PublishCounterSections(data, prefix);
      if !ok {
        return;
      }
      ghost var counters := CounterSections(prefix, data).events;
      ok := PublishDerived(data, prefix, dbFilter);
      AppendTwice(old(published), counters, DerivedSpec(old(totals), prefix, data, dbFilter).0.events);
    }

    /** The inner loop of lines 102-109: the collections of one database
        that the ignore filter does not match. */
    method PublishCollections(dbPrefix: seq<string>, colls: seq<Collection>, ignore: string -> bool)
      modifies this`published
      ensures published == old(published) + CollectionsEvents(dbPrefix, colls, ignore)
    {
      var j := 0;
      while j < |colls|
        invariant 0 <= j <= |colls|
        invariant published == old(published) + CollectionsEvents(dbPrefix, colls[..j], ignore)
      {
        var c := colls[j];
        if !ignore(c.name) {
          var _ := PublishDictWithPrefix(Doc(c.stats), dbPrefix + [c.name], Plain);
        }
        assert colls[..j + 1][..j] == colls[..j];
        AppendTwice(old(published), CollectionsEvents(dbPrefix, colls[..j], ignore),
          if ignore(c.name) then [] else DictEvents(dbPrefix + [c.name], c.stats, |c.stats|, Plain));
        j := j + 1;
      }
      assert colls[..j] == colls;
    }

    /** One pass of the outer loop of lines 96-109. */
    method PublishDatabase(prefix: seq<string>, db: Database, config: Config)
      modifies this`published
      ensures published == old(published) + DatabaseEvents(prefix, db, config)
    {
      if config.databases(db.name) {
        var dbPrefix := DatabasePrefix(prefix, db.name);
        var _ := PublishDictWithPrefix(Doc(db.stats), dbPrefix, Plain);
        PublishCollections(dbPrefix, db.collections, config.ignoreCollections);
        AppendTwice(old(published), DictEvents(dbPrefix, db.stats, |db.stats|, Plain),
          CollectionsEvents(dbPrefix, db.collections, config.ignoreCollections));
      }
    }

    /** Lines 96-109: the databases the filter lets through, each with the
        collections the ignore filter does not match. */
    method PublishDatabases(prefix: seq<string>, dbs: seq<Database>, config: Config)
      modifies this`published
      ensures published == old(published) + DatabasesEvents(prefix, dbs, config)
    {
      var i := 0;
      while i < |dbs|
        invariant 0 <= i <= |dbs|
        invariant published == old(published) + DatabasesEvents(prefix, dbs[..i], config)
      {
        PublishDatabase(prefix, dbs[i], config);
        assert dbs[..i + 1][..i] == dbs[..i];
        AppendTwice(old(published), DatabasesEvents(prefix, dbs[..i], config), DatabaseEvents(prefix, dbs[i], config));
        i := i + 1;
      }
      assert dbs[..i] == dbs;
    }

    /** Lines 92-109 for one connected host, added to the run so far. */
    method PublishHost(ghost base: seq<Event>, ghost prev: Run, prefix: seq<string>, server: Server, config: Config) returns (ok: bool)
      requires published == base + prev.events && totals == prev.totals
      modifies this
      ensures var next := HostStep(prev, prefix, server, config);
        && (ok <==> next.outcome == Finished)
        && published == base + next.events
        && totals == next.totals
    {
      var _ := PublishDictWithPrefix(Doc(server.status), prefix, Plain);
      ghost var status := DictEvents(prefix, server.status, |server.status|, Plain);
      ok := PublishTransformed(server.status, prefix, config.databases);
      ghost var transformed := TransformedSpec(prev.totals, prefix, server.status, config.databases).0.events;
      AppendTwice(base, prev.events, status);
      AppendTwice(base + prev.events, status, transformed);
      if ok {
        PublishDatabases(prefix, server.databases, config);
        AppendTwice(base + prev.events, status + transformed, DatabasesEvents(prefix, server.databases, config));
      }
      AppendTwice(base, prev.events, HostSpec(prev.totals, prefix, server, config).0.events);
    }

    /** One pass of the host loop (lines 81-109): connect to `hosts[i]`
        and, when that succeeds, publish its metrics; the run so far is
        extended by exactly one step. */
    method VisitHost(ghost base: seq<Event>, ghost start: Run, hosts: seq<string>, config: Config, connect: string -> Connection, i: nat) returns (outcome: Outcome)
      requires i < |hosts|
      requires RunHosts(start, hosts, connect, HostAt(hosts, config), i).outcome == Finished
      requires published == base + RunHosts(start, hosts, connect, HostAt(hosts, config), i).events
      requires totals == RunHosts(start, hosts, connect, HostAt(hosts, config), i).totals
      modifies this
      ensures var next := RunHosts(start, hosts, connect, HostAt(hosts, config), i + 1);
        && outcome == next.outcome
        && published == base + next.events
        && totals == next.totals
      ensures outcome != Finished ==>
        (RunHosts(start, hosts, connect, HostAt(hosts, config), |hosts|)
         == RunHosts(start, hosts, connect, HostAt(hosts, config), i + 1))
    {
      ghost var prev := RunHosts(start, hosts, connect, HostAt(hosts, config), i);
      var host := hosts[i];
      var prefix := BasePrefix(hosts, host);
      match connect(host) {
        case Refused =>
          outcome := ConnectFailed;
        case Connected(server) =>
          assert RunHosts(start, hosts, connect, HostAt(hosts, config), i + 1) == HostStep(prev, prefix, server, config);
          var ok := PublishHost(base, prev, prefix, server, config);
          outcome := if ok then Finished else Raised;
      }
      if outcome != Finished {
        RunHostsStops(start, hosts, connect, HostAt(hosts, config), i + 1, |hosts|);
      }
    }

    /** `collect()` (lines 64-109), with the servers' replies supplied by
        `connect`. */
    method Collect(config: Config, connect: string -> Connection) returns (outcome: Outcome)
      modifies this
      ensures outcome == CollectSpec(old(totals), config, connect).outcome
      ensures published == old(published) + CollectSpec(old(totals), config, connect).events
      ensures totals == CollectSpec(old(totals), config, connect).totals
    {
      var hosts := EffectiveHosts(config);
      ghost var base := published;
      ghost var start := Run([], totals, Finished);
      var i := 0;
      while i < |hosts|
        invariant 0 <= i <= |hosts|
        invariant RunHosts(start, hosts, connect, HostAt(hosts, config), i).outcome == Finished
        invariant published == base + RunHosts(start, hosts, connect, HostAt(hosts, config), i).events
        invariant totals == RunHosts(start, hosts, connect, HostAt(hosts, config), i).totals
      {
        outcome := VisitHost(base, start, hosts, config, connect, i);
        if outcome != Finished {
          return;
        }
        i := i + 1;
      }
      outcome := Finished;
    }
  }
}
