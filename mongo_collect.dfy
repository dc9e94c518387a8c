/** The MongoDB collector's `collect` (src/collectors/mongodb/mongodb.py,
    lines 64-109): the host list, the per-host metric prefix, and the
    databases / ignore_collections filters, as functions of the server
    replies. The replies (`serverStatus`, `database_names`, `dbStats`,
    `collection_names`, `collstats`) are inputs; the connection attempt is
    a function from host to its outcome. */
module MongoCollect {
  import opened Document
  import opened Dotted
  import opened Sink
  import opened MongoWalk
  import opened MongoDerive

  /** The collector settings `collect` reads. The two regular expressions
      are abstract predicates: `databases(name)` is
      `re.compile(databases).search(name)` succeeding, and likewise for
      `ignore_collections`. */
  datatype Config = Config(
    host: Option<string>,
    hosts: seq<string>,
    databases: string -> bool,
    ignoreCollections: string -> bool)

  /** A collection name and its `collstats` reply. */
  datatype Collection = Collection(name: string, stats: Fields)

  /** A database name, its `dbStats` reply and its collections. */
  datatype Database = Database(name: string, stats: Fields, collections: seq<Collection>)

  /** What one connected server answers during a cycle. */
  datatype Server = Server(status: Fields, databases: seq<Database>)

  /** The outcome of `pymongo.Connection(host, ...)`. */
  datatype Connection = Refused | Connected(server: Server)

  /** How `collect` ends: it ran through every host, it returned at a
      connection failure, or an exception escaped from a host's metrics. */
  datatype Outcome = Finished | ConnectFailed | Raised

  // ---------------------------------------------------------------------
  // Hosts and prefixes (lines 71-79)

  /** Lines 71-72: a `host` setting replaces `hosts` with a one-element list. */
  function EffectiveHosts(config: Config): (hs: seq<string>)
    ensures config.host.Some? ==> hs == [config.host.value] && |hs| == 1
    ensures config.host.None? ==> hs == config.hosts
  {
    if config.host.Some? then [config.host.value] else config.hosts
  }

  /** `re.sub('[:\.]', '_', host)`. */
  function Sanitize(host: string): (r: string)
    ensures |r| == |host|
    ensures ':' !in r && '.' !in r
    ensures forall i :: 0 <= i < |host| && host[i] != ':' && host[i] != '.' ==> r[i] == host[i]
    ensures forall i :: 0 <= i < |host| && (host[i] == ':' || host[i] == '.') ==> r[i] == '_'
  {
    if host == [] then []
    else [if host[0] == ':' || host[0] == '.' then '_' else host[0]] + Sanitize(host[1..])
  }

  /** Lines 75-79: no prefix when there is exactly one host, otherwise the
      sanitized host as a single name segment. */
  function BasePrefix(hosts: seq<string>, host: string): (r: seq<string>)
    ensures r == [] <==> |hosts| == 1
    ensures r != [] ==> r == [Sanitize(host)] && Split(Join(r, '.'), '.') == r
  {
    if |hosts| == 1 then []
    else
      SplitWithoutSep(Sanitize(host), '.');
      [Sanitize(host)]
  }

  // ---------------------------------------------------------------------
  // Databases and collections (lines 94-109)

  /** The prefix of a database's metrics: `base_prefix + ['databases', db]`. */
  function DatabasePrefix(prefix: seq<string>, db: string): seq<string>
  {
    prefix + ["databases", db]
  }

  /** The inner loop of lines 102-109 over `collection_names()`. */
  function CollectionsEvents(dbPrefix: seq<string>, colls: seq<Collection>, ignore: string -> bool): seq<Event>
  {
    if colls == [] then []
    else
      var c := colls[|colls| - 1];
      CollectionsEvents(dbPrefix, colls[..|colls| - 1], ignore)
        + (if ignore(c.name) then [] else DictEvents(dbPrefix + [c.name], c.stats, |c.stats|, Plain))
  }

  /** One pass of the outer loop of lines 96-109. */
  function DatabaseEvents(prefix: seq<string>, db: Database, config: Config): seq<Event>
  {
    if !config.databases(db.name) then []
    else
      var dbPrefix := DatabasePrefix(prefix, db.name);
      DictEvents(dbPrefix, db.stats, |db.stats|, Plain) + CollectionsEvents(dbPrefix, db.collections, config.ignoreCollections)
  }

  /** The outer loop of lines 96-109 over `database_names()`. */
  function DatabasesEvents(prefix: seq<string>, dbs: seq<Database>, config: Config): seq<Event>
  {
    if dbs == [] then []
    else DatabasesEvents(prefix, dbs[..|dbs| - 1], config) + DatabaseEvents(prefix, dbs[|dbs| - 1], config)
  }

  /** The collections the ignore filter lets through, in order. */
  function KeptCollections(colls: seq<Collection>, ignore: string -> bool): (r: seq<Collection>)
    ensures forall c :: c in r <==> c in colls && !ignore(c.name)
  {
    if colls == [] then []
    else
      var c := colls[|colls| - 1];
      assert colls == colls[..|colls| - 1] + [c];
      KeptCollections(colls[..|colls| - 1], ignore) + (if ignore(c.name) then [] else [c])
  }

  /** The databases the databases filter lets through, in order. */
  function KeptDatabases(dbs: seq<Database>, keep: string -> bool): (r: seq<Database>)
    ensures forall d :: d in r <==> d in dbs && keep(d.name)
  {
    if dbs == [] then []
    else
      var d := dbs[|dbs| - 1];
      assert dbs == dbs[..|dbs| - 1] + [d];
      KeptDatabases(dbs[..|dbs| - 1], keep) + (if keep(d.name) then [d] else [])
  }

  lemma {:induction false} CollectionsEventsConcat(dbPrefix: seq<string>, a: seq<Collection>, b: seq<Collection>, ignore: string -> bool)
    ensures CollectionsEvents(dbPrefix, a + b, ignore) == CollectionsEvents(dbPrefix, a, ignore) + CollectionsEvents(dbPrefix, b, ignore)
    decreases |b|
  {
    if b != [] {
      assert (a + b)[..|a + b| - 1] == a + b[..|b| - 1];
      CollectionsEventsConcat(dbPrefix, a, b[..|b| - 1], ignore);
    } else {
      assert a + b == a;
    }
  }

  lemma {:induction false} DatabasesEventsConcat(prefix: seq<string>, a: seq<Database>, b: seq<Database>, config: Config)
    ensures DatabasesEvents(prefix, a + b, config) == DatabasesEvents(prefix, a, config) + DatabasesEvents(prefix, b, config)
    decreases |b|
  {
    if b != [] {
      assert (a + b)[..|a + b| - 1] == a + b[..|b| - 1];
      DatabasesEventsConcat(prefix, a, b[..|b| - 1], config);
    } else {
      assert a + b == a;
    }
  }

  /** Ignored collections publish nothing: the inner loop publishes exactly
      what it would over the collections the filter keeps. */
  lemma {:induction false} IgnoredCollectionsPublishNothing(dbPrefix: seq<string>, colls: seq<Collection>, ignore: string -> bool)
    ensures CollectionsEvents(dbPrefix, colls, ignore) == CollectionsEvents(dbPrefix, KeptCollections(colls, ignore), ignore)
  {
    if colls != [] {
      var c := colls[|colls| - 1];
      var init := colls[..|colls| - 1];
      IgnoredCollectionsPublishNothing(dbPrefix, init, ignore);
      var tail := if ignore(c.name) then [] else [c];
      CollectionsEventsConcat(dbPrefix, KeptCollections(init, ignore), tail, ignore);
      if !ignore(c.name) {
        assert [c][..0] == [];
      }
    }
  }

  /** Databases the filter rejects publish nothing, neither their own
      statistics nor any collection's. */
  lemma {:induction false} FilteredDatabasesPublishNothing(prefix: seq<string>, dbs: seq<Database>, config: Config)
    ensures DatabasesEvents(prefix, dbs, config) == DatabasesEvents(prefix, KeptDatabases(dbs, config.databases), config)
  {
    if dbs != [] {
      var d := dbs[|dbs| - 1];
      var init := dbs[..|dbs| - 1];
      FilteredDatabasesPublishNothing(prefix, init, config);
      var tail := if config.databases(d.name) then [d] else [];
      DatabasesEventsConcat(prefix, KeptDatabases(init, config.databases), tail, config);
      if config.databases(d.name) {
        assert [d][..0] == [];
      }
    }
  }

  // ---------------------------------------------------------------------
  // Names lie below their prefix

  /** Every event in `es` is named `stem` followed by something. */
  predicate AllBelow(es: seq<Event>, stem: string)
  {
    forall e :: e in es ==> stem <= e.name
  }

  lemma PrefixTrans(a: string, b: string, c: string)
    requires a <= b && b <= c
    ensures a <= c
  {
    assert c[..|a|] == b[..|a|];
  }

  /** `'.'.join(prefix + ext)` extends `'.'.join(prefix) + '.'`. */
  lemma JoinExtends(prefix: seq<string>, ext: seq<string>)
    requires |prefix| >= 1 && |ext| >= 1
    ensures Join(prefix, '.') + "." <= Join(prefix + ext, '.')
  {
    JoinConcat(prefix, ext, '.');
  }

  /** Events below a longer stem are below a shorter one. */
  lemma AllBelowWeaken(es: seq<Event>, stem: string, longer: string)
    requires AllBelow(es, longer) && stem <= longer
    ensures AllBelow(es, stem)
  {
    forall e | e in es ensures stem <= e.name {
      PrefixTrans(stem, longer, e.name);
    }
  }

  /** A dict published under `prefix + ext` lies below `prefix`. */
  lemma DictBelowPrefix(prefix: seq<string>, ext: seq<string>, fields: Fields, p: Publisher)
    requires |prefix| >= 1 && |ext| >= 1
    ensures AllBelow(DictEvents(prefix + ext, fields, |fields|, p), Join(prefix, '.') + ".")
  {
    DictEventsBelow(prefix + ext, fields, |fields|, p);
    JoinExtends(prefix, ext);
    assert Join(prefix, '.') + "." <= Join(prefix + ext, '.') + ".";
    AllBelowWeaken(DictEvents(prefix + ext, fields, |fields|, p), Join(prefix, '.') + ".", Join(prefix + ext, '.') + ".");
  }

  lemma {:induction false} CollectionsBelow(dbPrefix: seq<string>, colls: seq<Collection>, ignore: string -> bool)
    requires |dbPrefix| >= 1
    ensures AllBelow(CollectionsEvents(dbPrefix, colls, ignore), Join(dbPrefix, '.') + ".")
  {
    if colls != [] {
      var c := colls[|colls| - 1];
      CollectionsBelow(dbPrefix, colls[..|colls| - 1], ignore);
      DictBelowPrefix(dbPrefix, [c.name], c.stats, Plain);
    }
  }

  /** Every database metric is named below
      `'.'.join(base_prefix + ['databases', db])` for a database the filter
      lets through. */
  lemma {:induction false} DatabasesEventsNamed(prefix: seq<string>, dbs: seq<Database>, config: Config)
    ensures forall e :: e in DatabasesEvents(prefix, dbs, config) ==>
      exists j :: 0 <= j < |dbs| && config.databases(dbs[j].name)
        && Join(DatabasePrefix(prefix, dbs[j].name), '.') + "." <= e.name
  {
    if dbs != [] {
      var init := dbs[..|dbs| - 1];
      var d := dbs[|dbs| - 1];
      DatabasesEventsNamed(prefix, init, config);
      if config.databases(d.name) {
        var dbPrefix := DatabasePrefix(prefix, d.name);
        DictEventsBelow(dbPrefix, d.stats, |d.stats|, Plain);
        CollectionsBelow(dbPrefix, d.collections, config.ignoreCollections);
      }
      forall e | e in DatabasesEvents(prefix, dbs, config)
        ensures exists j :: (0 <= j < |dbs| && config.databases(dbs[j].name)
          && Join(DatabasePrefix(prefix, dbs[j].name), '.') + "." <= e.name)
      {
        if e in DatabasesEvents(prefix, init, config) {
          var j :| 0 <= j < |init| && config.databases(init[j].name)
            && Join(DatabasePrefix(prefix, init[j].name), '.') + "." <= e.name;
          assert init[j] == dbs[j];
        } else {
          assert dbs[|dbs| - 1] == d;
        }
      }
    }
  }

  lemma {:induction false} DatabasesBelow(prefix: seq<string>, dbs: seq<Database>, config: Config)
    requires |prefix| >= 1
    ensures AllBelow(DatabasesEvents(prefix, dbs, config), Join(prefix, '.') + ".")
  {
    if dbs != [] {
      var d := dbs[|dbs| - 1];
      DatabasesBelow(prefix, dbs[..|dbs| - 1], config);
      if config.databases(d.name) {
        var dbPrefix := DatabasePrefix(prefix, d.name);
        DictBelowPrefix(prefix, ["databases", d.name], d.stats, Plain);
        CollectionsBelow(dbPrefix, d.collections, config.ignoreCollections);
        JoinExtends(prefix, ["databases", d.name]);
        assert Join(prefix, '.') + "." <= Join(dbPrefix, '.') + ".";
        AllBelowWeaken(CollectionsEvents(dbPrefix, d.collections, config.ignoreCollections), Join(prefix, '.') + ".", Join(dbPrefix, '.') + ".");
      }
    }
  }

  /** A step chained by `Then` adds only its own events. */
  lemma ThenBelow(run: Emission, step: Option<seq<Event>>, stem: string)
    requires AllBelow(run.events, stem)
    requires step.Some? ==> AllBelow(step.value, stem)
    ensures AllBelow(Then(run, step).events, stem)
  {
  }

  lemma SectionBelow(section: Value, prefix: seq<string>, name: string, p: Publisher)
    requires |prefix| >= 1
    ensures SectionEvents(section, prefix + [name], p).Some? ==>
      AllBelow(SectionEvents(section, prefix + [name], p).value, Join(prefix, '.') + ".")
  {
    if section.Doc? {
      DictBelowPrefix(prefix, [name], section.fields, p);
    }
  }

  lemma MetricBelow(prefix: seq<string>, name: string, key: string, data: Value, p: Publisher)
    requires |prefix| >= 1
    ensures MetricOutcome(prefix + [name], key, data, p).Some? ==>
      AllBelow(MetricOutcome(prefix + [name], key, data, p).value, Join(prefix, '.') + ".")
  {
    if data.Doc? {
      match Lookup(data.fields, key)
      case None =>
      case Some(v) =>
        assert prefix + [name] + [key] == prefix + [name, key];
        LeafEventsBelow(prefix + [name, key], v, p);
        JoinExtends(prefix, [name, key]);
        AllBelowWeaken(LeafEvents(prefix + [name, key], v, p), Join(prefix, '.') + ".", Join(prefix + [name, key], '.'));
    }
  }

  lemma CounterSectionsBelow(prefix: seq<string>, data: Fields)
    requires |prefix| >= 1
    ensures AllBelow(CounterSections(prefix, data).events, Join(prefix, '.') + ".")
  {
    var stem := Join(prefix, '.') + ".";
    var start := Emission([], true);
    SectionBelow(GetOr(data, "opcounters", Doc([])), prefix, "opcounters_per_sec", AsCounter);
    var s1 := Then(start, SectionEvents(GetOr(data, "opcounters", Doc([])), prefix + ["opcounters_per_sec"], AsCounter));
    ThenBelow(start, SectionEvents(GetOr(data, "opcounters", Doc([])), prefix + ["opcounters_per_sec"], AsCounter), stem);
    SectionBelow(GetOr(data, "opcountersRepl", Doc([])), prefix, "opcountersRepl_per_sec", AsCounter);
    var s2 := Then(s1, SectionEvents(GetOr(data, "opcountersRepl", Doc([])), prefix + ["opcountersRepl_per_sec"], AsCounter));
    ThenBelow(s1, SectionEvents(GetOr(data, "opcountersRepl", Doc([])), prefix + ["opcountersRepl_per_sec"], AsCounter), stem);
    MetricBelow(prefix, "backgroundFlushing_per_sec", "flushes", GetOr(data, "backgroundFlushing", Doc([])), AsCounter);
    var s3 := Then(s2, MetricOutcome(prefix + ["backgroundFlushing_per_sec"], "flushes", GetOr(data, "backgroundFlushing", Doc([])), AsCounter));
    ThenBelow(s2, MetricOutcome(prefix + ["backgroundFlushing_per_sec"], "flushes", GetOr(data, "backgroundFlushing", Doc([])), AsCounter), stem);
    SectionBelow(GetOr(data, "network", Doc([])), prefix, "network_per_sec", AsCounter);
    var s4 := Then(s3, SectionEvents(GetOr(data, "network", Doc([])), prefix + ["network_per_sec"], AsCounter));
    ThenBelow(s3, SectionEvents(GetOr(data, "network", Doc([])), prefix + ["network_per_sec"], AsCounter), stem);
    MetricBelow(prefix, "extra_info_per_sec", "page_faults", GetOr(data, "extra_info", Doc([])), AsCounter);
    ThenBelow(s4, MetricOutcome(prefix + ["extra_info_per_sec"], "page_faults", GetOr(data, "extra_info", Doc([])), AsCounter), stem);
  }

  lemma LocksLoopBelow(keyPrefix: string, interval: real, locks: Value, dbFilter: string -> bool)
    ensures AllBelow(LocksLoop(keyPrefix, interval, locks, dbFilter).events, keyPrefix)
  {
    if locks.Doc? {
      var renamed := RenameGlobal(locks.fields);
      LocksRunNames(keyPrefix, interval, renamed, dbFilter, |renamed|);
    }
  }

  lemma LocksBelow(totals: map<string, real>, prefix: seq<string>, data: Fields, dbFilter: string -> bool)
    ensures AllBelow(LocksSpec(totals, prefix, data, dbFilter).0.events, Join(prefix, '.') + ".")
  {
    var locks := GetOr(data, "locks", Null);
    var iv := IntervalSpec(totals, prefix, data, UptimePath);
    var es := LocksSpec(totals, prefix, data, dbFilter).0.events;
    if Truthy(locks) && !LocksRaiseEarly(locks) && iv.Some? {
      var keyPrefix := Join(prefix, '.') + ".percent.";
      assert es == LocksLoop(keyPrefix, iv.value.0, locks, dbFilter).events;
      LocksLoopBelow(keyPrefix, iv.value.0, locks, dbFilter);
      AllBelowWeaken(es, Join(prefix, '.') + ".", keyPrefix);
    } else {
      assert es == [];
    }
  }

  /** The percent counters are named below `'.'.join(base_prefix) + '.'`. */
  lemma PercentBelow(totals: map<string, real>, prefix: seq<string>, data: Fields, value: seq<string>, total: seq<string>)
    requires PercentSpec(totals, prefix, data, value, total).Some?
    ensures AllBelow([PercentSpec(totals, prefix, data, value, total).value.0], Join(prefix, '.') + ".")
  {
    PercentFacts(totals, prefix, data, value, total);
    assert Join(prefix, '.') + ".percent." + Join(value, '.') == (Join(prefix, '.') + ".") + ("percent." + Join(value, '.'));
  }

  /** The percent counters and the lock counters are named below
      `'.'.join(base_prefix) + '.'`. */
  lemma DerivedBelow(totals: map<string, real>, prefix: seq<string>, data: Fields, dbFilter: string -> bool)
    ensures AllBelow(DerivedSpec(totals, prefix, data, dbFilter).0.events, Join(prefix, '.') + ".")
  {
    var es := DerivedSpec(totals, prefix, data, dbFilter).0.events;
    var p1 := PercentSpec(totals, prefix, data, LockTimePath, TotalTimePath);
    if p1.Some? {
      PercentBelow(totals, prefix, data, LockTimePath, TotalTimePath);
      var p2 := PercentSpec(p1.value.1, prefix, data, MissesPath, AccessesPath);
      if p2.None? {
        assert es == [p1.value.0];
      } else {
        PercentBelow(p1.value.1, prefix, data, MissesPath, AccessesPath);
        LocksBelow(p2.value.1, prefix, data, dbFilter);
        assert es == [p1.value.0, p2.value.0] + LocksSpec(p2.value.1, prefix, data, dbFilter).0.events;
      }
    }
  }

  /** Every event of `_publish_transformed` under a non-empty prefix is
      named below `'.'.join(base_prefix) + '.'`. */
  lemma TransformedBelow(totals: map<string, real>, prefix: seq<string>, data: Fields, dbFilter: string -> bool)
    requires |prefix| >= 1
    ensures AllBelow(TransformedSpec(totals, prefix, data, dbFilter).0.events, Join(prefix, '.') + ".")
  {
    CounterSectionsBelow(prefix, data);
    DerivedBelow(totals, prefix, data, dbFilter);
  }

  // ---------------------------------------------------------------------
  // One host, then all hosts (lines 74-109)

  /** Lines 92-109 for one connected host: the status dict, then
      `_publish_transformed`, then the databases. When
      `_publish_transformed` raises, the databases are never reached. */
  function HostSpec(totals: map<string, real>, prefix: seq<string>, server: Server, config: Config): (Emission, map<string, real>)
  {
    var status := DictEvents(prefix, server.status, |server.status|, Plain);
    var (t, totals') := TransformedSpec(totals, prefix, server.status, config.databases);
    var dbs := if t.completed then DatabasesEvents(prefix, server.databases, config) else [];
    (Emission(status + t.events + dbs, t.completed), totals')
  }

  /** The state of `collect` after some hosts: what it published, the
      `__totals` it left, and whether it is still going. */
  datatype Run = Run(events: seq<Event>, totals: map<string, real>, outcome: Outcome)

  /** One connected host added to a run that is still going. */
  function HostStep(prev: Run, prefix: seq<string>, server: Server, config: Config): Run
  {
    var (em, t) := HostSpec(prev.totals, prefix, server, config);
    Run(prev.events + em.events, t, if em.completed then Finished else Raised)
  }

  /** The loop of lines 74-109 over the first `n` hosts, given what one
      connected host adds to a run (`step`, applied to the run so far, the
      host's position and the server's replies). A refused connection
      makes `collect` return at once, skipping every later host; an
      exception in a host's metrics leaves `collect` the same way. */
  function RunHosts(start: Run, hosts: seq<string>, connect: string -> Connection, step: (Run, nat, Server) -> Run, n: nat): Run
    requires n <= |hosts|
  {
    if n == 0 then start
    else
      var prev := RunHosts(start, hosts, connect, step, n - 1);
      if prev.outcome != Finished then prev
      else match connect(hosts[n - 1])
        case Refused => prev.(outcome := ConnectFailed)
        case Connected(server) => step(prev, n - 1, server)
  }

  /** The body of the host loop for the host at position `i`. */
  function HostAt(hosts: seq<string>, config: Config): (Run, nat, Server) -> Run
  {
    (prev: Run, i: nat, server: Server) =>
      if i < |hosts| then HostStep(prev, BasePrefix(hosts, hosts[i]), server, config) else prev
  }

  /** `collect` over the first `n` hosts, starting from the given totals. */
  function CollectRun(totals: map<string, real>, config: Config, hosts: seq<string>, connect: string -> Connection, n: nat): Run
    requires n <= |hosts|
  {
    RunHosts(Run([], totals, Finished), hosts, connect, HostAt(hosts, config), n)
  }

  /** One call of `collect`: the events, the `__totals` afterwards, and how it ended. */
  function CollectSpec(totals: map<string, real>, config: Config, connect: string -> Connection): Run
  {
    var hosts := EffectiveHosts(config);
    CollectRun(totals, config, hosts, connect, |hosts|)
  }

  /** With several hosts every host's metrics lie below its sanitized name. */
  lemma HostBelow(totals: map<string, real>, prefix: seq<string>, server: Server, config: Config)
    requires |prefix| >= 1
    ensures AllBelow(HostSpec(totals, prefix, server, config).0.events, Join(prefix, '.') + ".")
  {
    DictEventsBelow(prefix, server.status, |server.status|, Plain);
    TransformedBelow(totals, prefix, server.status, config.databases);
    DatabasesBelow(prefix, server.databases, config);
  }

  /** When every step only adds events that `named` accepts for the host
      it ran for, every event of the run is accepted for some connected
      host. */
  lemma {:induction false} RunHostsNamed(start: Run, hosts: seq<string>, connect: string -> Connection, step: (Run, nat, Server) -> Run, n: nat, named: (Event, nat) -> bool)
    requires n <= |hosts|
    requires start.events == []
    requires forall prev, i, server, e :: e in step(prev, i, server).events ==> e in prev.events || named(e, i)
    ensures forall e :: e in RunHosts(start, hosts, connect, step, n).events ==>
      exists j :: 0 <= j < n && connect(hosts[j]).Connected? && named(e, j)
  {
    if n > 0 {
      RunHostsNamed(start, hosts, connect, step, n - 1, named);
      var prev := RunHosts(start, hosts, connect, step, n - 1);
      forall e | e in RunHosts(start, hosts, connect, step, n).events
        ensures exists j :: 0 <= j < n && connect(hosts[j]).Connected? && named(e, j)
      {
        if e !in prev.events {
          assert prev.outcome == Finished && connect(hosts[n - 1]).Connected?;
          assert named(e, n - 1);
        }
      }
    }
  }

  /** With more than one host, every metric `collect` publishes is named
      `sanitized_host + '.' + ...` for a host it connected to. */
  lemma CollectNamesCarryHost(totals: map<string, real>, config: Config, hosts: seq<string>, connect: string -> Connection, n: nat)
    requires |hosts| != 1 && n <= |hosts|
    ensures forall e :: e in CollectRun(totals, config, hosts, connect, n).events ==>
      exists j :: 0 <= j < n && connect(hosts[j]).Connected? && Sanitize(hosts[j]) + "." <= e.name
  {
    var named := (e: Event, j: nat) => j < |hosts| && Sanitize(hosts[j]) + "." <= e.name;
    var step := HostAt(hosts, config);
    forall prev: Run, i: nat, server: Server, e: Event | e in step(prev, i, server).events
      ensures e in prev.events || named(e, i)
    {
      if i < |hosts| && e !in prev.events {
        var prefix := BasePrefix(hosts, hosts[i]);
        HostBelow(prev.totals, prefix, server, config);
        assert Join(prefix, '.') == Sanitize(hosts[i]);
      }
    }
    RunHostsNamed(Run([], totals, Finished), hosts, connect, step, n, named);
  }

  /** Once `collect` has stopped, whether on a refused connection or an
      exception, the hosts after that change nothing. */
  lemma {:induction false} RunHostsStops(start: Run, hosts: seq<string>, connect: string -> Connection, step: (Run, nat, Server) -> Run, k: nat, n: nat)
    requires k <= n <= |hosts|
    requires RunHosts(start, hosts, connect, step, k).outcome != Finished
    ensures RunHosts(start, hosts, connect, step, n) == RunHosts(start, hosts, connect, step, k)
  {
    if n > k {
      RunHostsStops(start, hosts, connect, step, k, n - 1);
    }
  }

  /** A refused connection ends `collect`: no later host is contacted, so
      the events and the totals are those the hosts before it left. */
  lemma {:induction false} RefusedStopsCollect(start: Run, hosts: seq<string>, connect: string -> Connection, step: (Run, nat, Server) -> Run, k: nat, n: nat)
    requires k < n <= |hosts|
    requires RunHosts(start, hosts, connect, step, k).outcome == Finished
    requires connect(hosts[k]).Refused?
    ensures RunHosts(start, hosts, connect, step, n) == RunHosts(start, hosts, connect, step, k).(outcome := ConnectFailed)
  {
    if n > k + 1 {
      RefusedStopsCollect(start, hosts, connect, step, k, n - 1);
    }
  }

  /** With one host, the percent counters are named `.percent.<value_name>`:
      the empty prefix leaves a leading `.`. */
  lemma SingleHostPercentName(totals: map<string, real>, data: Fields, value: seq<string>, total: seq<string>)
    requires PercentSpec(totals, [], data, value, total).Some?
    ensures PercentSpec(totals, [], data, value, total).value.0.name == ".percent." + Join(value, '.')
  {
    PercentFacts(totals, [], data, value, total);
  }
}
