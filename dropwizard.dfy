/** The Dropwizard collector (src/collectors/dropwizard/dropwizard.py): it
    composes the metrics servlet's URL, fetches and parses its JSON body,
    fills a flat `metrics` dict from fixed fields of the body and from the
    configured "timed" sections, and publishes every entry of that dict. */
module Dropwizard {
  import opened Document
  import opened Dotted
  import opened Sink

  /** The settings `collect` reads. `secure` and `port` keep the Python
      value the configuration holds (a boolean default or a string from a
      configuration file); `timed` is the string of space-separated
      section names. */
  datatype Config = Config(host: string, port: Value, urlPath: string, secure: Value, timed: string)

  // ---------------------------------------------------------------------
  // URL composition (lines 57-67)

  predicate IsDigit(c: char)
  {
    '0' <= c <= '9'
  }

  function DigitChar(d: nat): (c: char)
    requires d < 10
    ensures IsDigit(c) && c as int - '0' as int == d
  {
    ('0' as int + d) as char
  }

  /** `'%i' % n` for `n >= 0`: decimal digits, no leading zero. */
  function FormatNat(n: nat): (s: string)
    ensures |s| >= 1 && AllDigits(s)
  {
    if n < 10 then [DigitChar(n)]
    else FormatNat(n / 10) + [DigitChar(n % 10)]
  }

  /** `'%i' % n`. */
  function FormatInt(n: int): string
  {
    if n < 0 then "-" + FormatNat(-n) else FormatNat(n)
  }

  predicate AllDigits(s: string)
  {
    forall i :: 0 <= i < |s| ==> IsDigit(s[i])
  }

  /** The number a string of decimal digits denotes. */
  function DigitsValue(s: string): nat
    requires AllDigits(s)
  {
    if |s| == 0 then 0
    else
      assert IsDigit(s[|s| - 1]);
      DigitsValue(s[..|s| - 1]) * 10 + (s[|s| - 1] as int - '0' as int)
  }

  /** Python's `int(s)` on a string: an optional sign and at least one
      decimal digit; anything else raises (None). */
  function ParseInt(s: string): Option<int>
  {
    var signed := |s| > 0 && (s[0] == '-' || s[0] == '+');
    var digits := if signed then s[1..] else s;
    if |digits| == 0 || !AllDigits(digits) then None
    else
      var n: int := DigitsValue(digits);
      if s[0] == '-' then Some(-n) else Some(n)
  }

  /** Python's `int(v)` on a configuration value (truncation toward zero
      for a float); None where it raises. */
  function PortNumber(port: Value): Option<int>
  {
    match port
    case Int(i) => Some(i)
    case Long(l) => Some(l)
    case Bool(b) => Some(if b then 1 else 0)
    case Float(f) => Some(if f >= 0.0 then f.Floor else -((-f).Floor))
    case Str(s) => ParseInt(s)
    case _ => None
  }

  /** Lines 57-60: `https` exactly when `secure` is truthy. */
  function Scheme(secure: Value): string
  {
    if Truthy(secure) then "https" else "http"
  }

  /** Lines 62-67: `'%s://%s:%i/%s' % (proto, host, int(port), url_path)`,
      or None when `int(port)` raises. */
  function Url(config: Config): Option<string>
  {
    match PortNumber(config.port)
    case None => None
    case Some(p) => Some(Scheme(config.secure) + "://" + config.host + ":" + FormatInt(p) + "/" + config.urlPath)
  }

  lemma {:induction false} DigitsFormat(n: nat)
    ensures DigitsValue(FormatNat(n)) == n
  {
    if n >= 10 {
      var s := FormatNat(n);
      assert s[..|s| - 1] == FormatNat(n / 10);
      DigitsFormat(n / 10);
    }
  }

  /** The port written into the URL reads back as the same number. */
  lemma FormatParse(n: int)
    ensures ParseInt(FormatInt(n)) == Some(n)
  {
    var s := FormatInt(n);
    if n < 0 {
      var digits := FormatNat(-n);
      DigitsFormat(-n);
      assert s == "-" + digits;
      assert s[0] == '-' && s[1..] == digits;
    } else {
      var digits := FormatNat(n);
      DigitsFormat(n);
      assert s == digits && IsDigit(s[0]);
    }
  }

  /** The URL exists exactly when the port converts, starts with
      `https://` exactly when `secure` is truthy and with `http://`
      otherwise, and carries the port as written by `%i`. */
  lemma SchemePrefix(secure: Value, rest: string)
    ensures Truthy(secure) <==> "https://" <= Scheme(secure) + "://" + rest
    ensures !Truthy(secure) <==> "http://" <= Scheme(secure) + "://" + rest
  {
    var u := Scheme(secure) + "://" + rest;
    if Truthy(secure) {
      assert u == "https://" + rest;
      assert u[4] == 's';
    } else {
      assert u == "http://" + rest;
      assert u[4] == ':';
    }
  }

  /** Lines 57-67: a URL exists exactly when `int(port)` succeeds, and its
      scheme is `https` exactly when `secure` is truthy. */
  lemma UrlFacts(config: Config)
    ensures Url(config).Some? <==> PortNumber(config.port).Some?
    ensures Url(config).Some? ==>
      var u := Url(config).value;
      && (Truthy(config.secure) <==> "https://" <= u)
      && (!Truthy(config.secure) <==> "http://" <= u)
  {
    match PortNumber(config.port)
    case None =>
    case Some(p) =>
      var rest := config.host + ":" + FormatInt(p) + "/" + config.urlPath;
      assert Url(config).value == Scheme(config.secure) + "://" + rest;
      SchemePrefix(config.secure, rest);
  }

  /** The URL of lines 62-67 in its `'%s://%s:%i/%s'` shape: after the
      scheme and `://` comes the host, then `:`, then the port digits,
      then `/` and the path. */
  lemma UrlParts(config: Config)
    ensures Url(config).Some? ==>
      var u := Url(config).value;
      var h := |Scheme(config.secure) + "://"|;
      && h + |config.host| + 2 + |config.urlPath| <= |u|
      && u[h..h + |config.host|] == config.host
      && u[h + |config.host|] == ':'
      && u[h + |config.host| + 1..|u| - |config.urlPath| - 1] == FormatInt(PortNumber(config.port).value)
      && u[|u| - |config.urlPath| - 1] == '/'
      && u[|u| - |config.urlPath|..] == config.urlPath
  {
    match PortNumber(config.port)
    case None =>
    case Some(p) =>
      var head := Scheme(config.secure) + "://";
      assert Url(config).value == head + config.host + ":" + FormatInt(p) + "/" + config.urlPath;
      UrlSlices(head, config.host, FormatInt(p), config.urlPath);
  }

  /** The port digits between `:` and `/` in the URL read back, with
      `int()`, as the configured port. */
  lemma UrlPort(config: Config)
    ensures Url(config).Some? ==>
      var u := Url(config).value;
      var h := |Scheme(config.secure) + "://"|;
      && h + |config.host| + 2 + |config.urlPath| <= |u|
      && ParseInt(u[h + |config.host| + 1..|u| - |config.urlPath| - 1]) == PortNumber(config.port)
  {
    UrlParts(config);
    if Url(config).Some? {
      var u := Url(config).value;
      var h := |Scheme(config.secure) + "://"|;
      ReadBack(u, h + |config.host| + 1, |u| - |config.urlPath| - 1, PortNumber(config.port).value);
    }
  }

  /** Digits written with `'%i'` into a string read back as the number. */
  lemma ReadBack(u: string, lo: int, hi: int, n: int)
    requires 0 <= lo <= hi <= |u| && u[lo..hi] == FormatInt(n)
    ensures ParseInt(u[lo..hi]) == Some(n)
  {
    FormatParse(n);
  }

  /** Where the parts of `head + host + ":" + port + "/" + path` lie. */
  lemma UrlSlices(head: string, host: string, port: string, path: string)
    ensures var u := head + host + ":" + port + "/" + path;
      var h := |head|;
      && |u| == h + |host| + |port| + 2 + |path|
      && u[h..h + |host|] == host
      && u[h + |host|] == ':'
      && u[h + |host| + 1..|u| - |path| - 1] == port
      && u[|u| - |path| - 1] == '/'
      && u[|u| - |path|..] == path
  {
    var u := head + host + ":" + port + "/" + path;
    var h := |head|;
    assert u[h..h + |host|] == host;
    assert u[h + |host| + 1..|u| - |path| - 1] == port;
    assert u[|u| - |path|..] == path;
  }

  // ---------------------------------------------------------------------
  // The metric map (lines 88-151)

  /** One `metrics[name] = result[path[0]][path[1]]...` statement. */
  datatype Assignment = Assignment(name: string, path: seq<string>)

  /** The sections fetched at lines 90-95. */
  const Sections: seq<seq<string>> := [
    ["jvm", "memory"],
    ["jvm", "memory", "memory_pool_usages"],
    ["jvm"],
    ["jvm", "thread-states"],
    ["ch.qos.logback.core.Appender"],
    ["org.eclipse.jetty.servlet.ServletContextHandler"]
  ]

  /** Lines 97-99. */
  const JettyRates: seq<Assignment> := [
    Assignment("org.eclipse.jetty.servlet.ServletContextHandler.2xx-responses.1MinuteRate",
               ["org.eclipse.jetty.servlet.ServletContextHandler", "2xx-responses", "m1"]),
    Assignment("org.eclipse.jetty.servlet.ServletContextHandler.4xx-responses.1MinuteRate",
               ["org.eclipse.jetty.servlet.ServletContextHandler", "4xx-responses", "m1"]),
    Assignment("org.eclipse.jetty.servlet.ServletContextHandler.5xx-responses.1MinuteRate",
               ["org.eclipse.jetty.servlet.ServletContextHandler", "5xx-responses", "m1"])
  ]

  /** Lines 101-103. */
  const LogbackRates: seq<Assignment> := [
    Assignment("ch.qos.logback.core.Appender.info.1MinuteRate", ["ch.qos.logback.core.Appender", "info", "m1"]),
    Assignment("ch.qos.logback.core.Appender.warn.1MinuteRate", ["ch.qos.logback.core.Appender", "warn", "m1"]),
    Assignment("ch.qos.logback.core.Appender.error.1MinuteRate", ["ch.qos.logback.core.Appender", "error", "m1"])
  ]

  /** Lines 105-108, repeated at lines 110-113. */
  const MemoryTotals: seq<Assignment> := [
    Assignment("jvm.memory.totalInit", ["jvm", "memory", "totalInit"]),
    Assignment("jvm.memory.totalUsed", ["jvm", "memory", "totalUsed"]),
    Assignment("jvm.memory.totalMax", ["jvm", "memory", "totalMax"]),
    Assignment("jvm.memory.totalCommitted", ["jvm", "memory", "totalCommitted"])
  ]

  /** Lines 114-123: heap figures, then the four memory pools under their
      literal names. */
  const MemoryDetails: seq<Assignment> := [
    Assignment("jvm.memory.heapInit", ["jvm", "memory", "heapInit"]),
    Assignment("jvm.memory.heapUsed", ["jvm", "memory", "heapUsed"]),
    Assignment("jvm.memory.heapMax", ["jvm", "memory", "heapMax"]),
    Assignment("jvm.memory.heapCommitted", ["jvm", "memory", "heapCommitted"]),
    Assignment("jvm.memory.heap_usage", ["jvm", "memory", "heap_usage"]),
    Assignment("jvm.memory.non_heap_usage", ["jvm", "memory", "non_heap_usage"]),
    Assignment("jvm.memory.code_cache", ["jvm", "memory", "memory_pool_usages", "Code Cache"]),
    Assignment("jvm.memory.eden_space", ["jvm", "memory", "memory_pool_usages", "Eden Space"]),
    Assignment("jvm.memory.perm_gen", ["jvm", "memory", "memory_pool_usages", "Perm Gen"]),
    Assignment("jvm.memory.survivor_space", ["jvm", "memory", "memory_pool_usages", "Survivor Space"])
  ]

  /** Lines 124-132, repeated at lines 134-143. */
  const JvmThreads: seq<Assignment> := [
    Assignment("jvm.daemon_thread_count", ["jvm", "daemon_thread_count"]),
    Assignment("jvm.thread_count", ["jvm", "thread_count"]),
    Assignment("jvm.fd_usage", ["jvm", "fd_usage"]),
    Assignment("jvm.thread_states.timed_waiting", ["jvm", "thread-states", "timed_waiting"]),
    Assignment("jvm.thread_states.runnable", ["jvm", "thread-states", "runnable"]),
    Assignment("jvm.thread_states.blocked", ["jvm", "thread-states", "blocked"]),
    Assignment("jvm.thread_states.waiting", ["jvm", "thread-states", "waiting"]),
    Assignment("jvm.thread_states.new", ["jvm", "thread-states", "new"]),
    Assignment("jvm.thread_states.terminated", ["jvm", "thread-states", "terminated"])
  ]

  /** Lines 97-143 in source order, repeats included. */
  const FixedTable: seq<Assignment> :=
    JettyRates + LogbackRates + MemoryTotals + MemoryTotals + MemoryDetails + JvmThreads + JvmThreads

  /** The same statements with each repeat dropped. */
  const DistinctTable: seq<Assignment> :=
    JettyRates + LogbackRates + MemoryTotals + MemoryDetails + JvmThreads

  /** The statements `table` in order, starting from `metrics`; None when
      one of them raises (KeyError on a missing key, TypeError on indexing
      a value that is not a dict). */
  function Apply(result: Value, metrics: map<string, Value>, table: seq<Assignment>): Option<map<string, Value>>
    decreases |table|
  {
    if table == [] then Some(metrics)
    else match At(result, table[0].path)
      case None => None
      case Some(v) => Apply(result, metrics[table[0].name := v], table[1..])
  }

  /** Every statement of `table` finds its field. */
  predicate AllResolve(result: Value, table: seq<Assignment>)
  {
    forall i :: 0 <= i < |table| ==> At(result, table[i].path).Some?
  }

  /** The names `table` assigns. */
  function Names(table: seq<Assignment>): set<string>
  {
    set i | 0 <= i < |table| :: table[i].name
  }

  /** Reference definition of what `table` writes: each name maps to the
      field of the last statement naming it. */
  function Writes(result: Value, table: seq<Assignment>): map<string, Value>
    requires AllResolve(result, table)
    decreases |table|
  {
    if table == [] then map[]
    else
      assert AllResolve(result, table[1..]) by {
        forall i | 0 <= i < |table[1..]| ensures At(result, table[1..][i].path).Some? {
          assert table[1..][i] == table[i + 1];
        }
      }
      map[table[0].name := At(result, table[0].path).value] + Writes(result, table[1..])
  }

  lemma MapUpdateUnion(m: map<string, Value>, k: string, v: Value, w: map<string, Value>)
    ensures m[k := v] + w == m + (map[k := v] + w)
  {
  }

  lemma MapUnionAssoc(x: map<string, Value>, y: map<string, Value>, z: map<string, Value>)
    ensures x + y + z == x + (y + z)
  {
  }

  /** The statements succeed exactly when every field exists, and then
      they override `metrics` with `Writes`. */
  lemma {:induction false} ApplyWrites(result: Value, metrics: map<string, Value>, table: seq<Assignment>)
    ensures Apply(result, metrics, table).Some? <==> AllResolve(result, table)
    ensures AllResolve(result, table) ==> Apply(result, metrics, table) == Some(metrics + Writes(result, table))
    decreases |table|
  {
    if table != [] {
      assert forall i :: 0 < i < |table| ==> table[1..][i - 1] == table[i];
      match At(result, table[0].path)
      case None =>
      case Some(v) =>
        ApplyWrites(result, metrics[table[0].name := v], table[1..]);
        if AllResolve(result, table) {
          assert AllResolve(result, table[1..]);
          assert Writes(result, table) == map[table[0].name := v] + Writes(result, table[1..]);
          MapUpdateUnion(metrics, table[0].name, v, Writes(result, table[1..]));
        }
    } else {
      assert metrics + map[] == metrics;
    }
  }

  /** `Writes` sets exactly the names of the table. */
  lemma {:induction false} WritesKeys(result: Value, table: seq<Assignment>)
    requires AllResolve(result, table)
    ensures Writes(result, table).Keys == Names(table)
    decreases |table|
  {
    if table != [] {
      WritesKeys(result, table[1..]);
      assert Names(table) == {table[0].name} + Names(table[1..]) by {
        forall k | k in Names(table) ensures k in {table[0].name} + Names(table[1..]) {
          var i :| 0 <= i < |table| && table[i].name == k;
          if i > 0 {
            assert table[1..][i - 1] == table[i];
          }
        }
      }
    }
  }

  /** A statement no later statement overrides leaves its field under its
      name. */
  lemma {:induction false} WritesLast(result: Value, table: seq<Assignment>, i: nat)
    requires AllResolve(result, table) && i < |table|
    requires forall j :: i < j < |table| ==> table[j].name != table[i].name
    ensures table[i].name in Writes(result, table)
    ensures Writes(result, table)[table[i].name] == At(result, table[i].path).value
    decreases |table|
  {
    WritesKeys(result, table[1..]);
    if i > 0 {
      assert table[1..][i - 1] == table[i];
      WritesLast(result, table[1..], i - 1);
    } else {
      assert table[0].name !in Names(table[1..]) by {
        forall j | 0 <= j < |table[1..]| ensures table[1..][j].name != table[0].name {
          assert table[1..][j] == table[j + 1];
        }
      }
    }
  }

  lemma {:induction false} WritesConcat(result: Value, a: seq<Assignment>, b: seq<Assignment>)
    requires AllResolve(result, a) && AllResolve(result, b)
    ensures AllResolve(result, a + b)
    ensures Writes(result, a + b) == Writes(result, a) + Writes(result, b)
    decreases |a|
  {
    assert AllResolve(result, a + b) by {
      forall i | 0 <= i < |a + b| ensures At(result, (a + b)[i].path).Some? {
        if i >= |a| {
          assert (a + b)[i] == b[i - |a|];
        }
      }
    }
    if a != [] {
      assert (a + b)[0] == a[0];
      assert (a + b)[1..] == a[1..] + b;
      assert AllResolve(result, a[1..]) by {
        forall i | 0 <= i < |a[1..]| ensures At(result, a[1..][i].path).Some? {
          assert a[1..][i] == a[i + 1];
        }
      }
      WritesConcat(result, a[1..], b);
      var head := map[a[0].name := At(result, a[0].path).value];
      MapUnionAssoc(head, Writes(result, a[1..]), Writes(result, b));
    } else {
      assert a + b == b;
      assert map[] + Writes(result, b) == Writes(result, b);
    }
  }

  lemma AllResolveConcat(result: Value, a: seq<Assignment>, b: seq<Assignment>)
    ensures AllResolve(result, a + b) <==> AllResolve(result, a) && AllResolve(result, b)
  {
    if AllResolve(result, a + b) {
      forall i | 0 <= i < |b| ensures At(result, b[i].path).Some? {
        assert (a + b)[|a| + i] == b[i];
      }
      forall i | 0 <= i < |a| ensures At(result, a[i].path).Some? {
        assert (a + b)[i] == a[i];
      }
    }
    if AllResolve(result, a) && AllResolve(result, b) {
      WritesConcat(result, a, b);
    }
  }

  /** Running the same statements twice in a row has the effect of
      running them once. */
  lemma ApplyTwice(result: Value, metrics: map<string, Value>, pre: seq<Assignment>, block: seq<Assignment>, post: seq<Assignment>)
    ensures Apply(result, metrics, pre + block + block + post) == Apply(result, metrics, pre + block + post)
  {
    AllResolveConcat(result, pre, block);
    AllResolveConcat(result, pre + block, block);
    AllResolveConcat(result, pre + block + block, post);
    AllResolveConcat(result, pre + block, post);
    ApplyWrites(result, metrics, pre + block + block + post);
    ApplyWrites(result, metrics, pre + block + post);
    if AllResolve(result, pre + block + post) {
      WritesConcat(result, pre, block);
      WritesConcat(result, pre + block, block);
      WritesConcat(result, pre + block + block, post);
      WritesConcat(result, pre + block, post);
      var wp, wb := Writes(result, pre), Writes(result, block);
      MapUnionAssoc(wp, wb, wb);
      assert wb + wb == wb;
    }
  }

  /** Lines 110-113 and 134-143 change nothing: the table in source order
      has the effect of the table without its repeats, on any map. */
  lemma RepeatsAreIdempotent(result: Value, metrics: map<string, Value>)
    ensures Apply(result, metrics, FixedTable) == Apply(result, metrics, DistinctTable)
  {
    var a, t, d, b := JettyRates + LogbackRates, MemoryTotals, MemoryDetails, JvmThreads;
    assert FixedTable == a + t + t + (d + b + b);
    ApplyTwice(result, metrics, a, t, d + b + b);
    assert a + t + (d + b + b) == a + t + d + b + b + [];
    ApplyTwice(result, metrics, a + t + d, b, []);
    assert a + t + d + b + [] == DistinctTable;
  }

  /** The three statements of lines 149-151 for one resource of a timed
      section. */
  function TimedRows(stat: string, resource: string): seq<Assignment>
  {
    [Assignment(Join([stat, resource, "duration", "mean"], '.'), [stat, resource, "duration", "mean"]),
     Assignment(Join([stat, resource, "duration", "p98"], '.'), [stat, resource, "duration", "p98"]),
     Assignment(Join([stat, resource, "rate", "1MinuteRate"], '.'), [stat, resource, "rate", "m1"])]
  }

  /** The inner loop of lines 148-151 over the given resources. */
  function ResourceRows(stat: string, resources: seq<string>): seq<Assignment>
    decreases |resources|
  {
    if resources == [] then []
    else TimedRows(stat, resources[0]) + ResourceRows(stat, resources[1..])
  }

  /** Lines 147-151 run on `metrics` for the given stats, in order; None
      when `result[stat]` is missing, cannot be iterated, or a field of a
      resource is missing. */
  function TimedFrom(result: Value, metrics: map<string, Value>, stats: seq<string>): Option<map<string, Value>>
    decreases |stats|
  {
    if stats == [] then Some(metrics)
    else match At(result, [stats[0]])
      case None => None
      case Some(section) =>
        match IterKeys(section)
        case None => None
        case Some(resources) =>
          match Apply(result, metrics, ResourceRows(stats[0], resources))
          case None => None
          case Some(m) => TimedFrom(result, m, stats[1..])
  }

  /** Reference definition: every statement the timed loop would run, or
      None when some section is missing or not iterable. */
  function TimedTable(result: Value, stats: seq<string>): Option<seq<Assignment>>
    decreases |stats|
  {
    if stats == [] then Some([])
    else match At(result, [stats[0]])
      case None => None
      case Some(section) =>
        match IterKeys(section)
        case None => None
        case Some(resources) =>
          match TimedTable(result, stats[1..])
          case None => None
          case Some(rest) => Some(ResourceRows(stats[0], resources) + rest)
  }

  lemma {:induction false} ApplyConcat(result: Value, metrics: map<string, Value>, a: seq<Assignment>, b: seq<Assignment>)
    ensures Apply(result, metrics, a + b) ==
      match Apply(result, metrics, a)
      case None => None
      case Some(m) => Apply(result, m, b)
    decreases |a|
  {
    if a != [] {
      assert (a + b)[0] == a[0];
      assert (a + b)[1..] == a[1..] + b;
      match At(result, a[0].path)
      case None =>
      case Some(v) => ApplyConcat(result, metrics[a[0].name := v], a[1..], b);
    } else {
      assert a + b == b;
    }
  }

  /** The timed loop is the statements of `TimedTable` run in order: it
      succeeds exactly when every section exists and is iterable and
      every field exists. */
  lemma {:induction false} TimedFromTable(result: Value, metrics: map<string, Value>, stats: seq<string>)
    ensures TimedFrom(result, metrics, stats) ==
      match TimedTable(result, stats)
      case None => None
      case Some(t) => Apply(result, metrics, t)
    decreases |stats|
  {
    if stats != [] {
      match At(result, [stats[0]])
      case None =>
      case Some(section) =>
        match IterKeys(section)
        case None =>
        case Some(resources) =>
          var rows := ResourceRows(stats[0], resources);
          match Apply(result, metrics, rows) {
            case None =>
            case Some(m) => TimedFromTable(result, m, stats[1..]);
          }
          match TimedTable(result, stats[1..]) {
            case None =>
            case Some(rest) => ApplyConcat(result, metrics, rows, rest);
          }
    }
  }

  /** Each resource adds its three names: `stat.resource.duration.mean`,
      `stat.resource.duration.p98` and `stat.resource.rate.1MinuteRate`,
      read from `duration.mean`, `duration.p98` and `rate.m1`. */
  lemma TimedRowsNamed(stat: string, resource: string)
    ensures var rows := TimedRows(stat, resource);
      && |rows| == 3
      && rows[0] == Assignment(stat + "." + resource + ".duration.mean", [stat, resource, "duration", "mean"])
      && rows[1] == Assignment(stat + "." + resource + ".duration.p98", [stat, resource, "duration", "p98"])
      && rows[2] == Assignment(stat + "." + resource + ".rate.1MinuteRate", [stat, resource, "rate", "m1"])
  {
    JoinFour(stat, resource, "duration", "mean");
    JoinFour(stat, resource, "duration", "p98");
    JoinFour(stat, resource, "rate", "1MinuteRate");
  }

  lemma JoinFour(a: string, b: string, c: string, d: string)
    ensures Join([a, b, c, d], '.') == a + "." + b + "." + c + "." + d
  {
    assert [a, b, c, d][1..] == [b, c, d];
    assert [b, c, d][1..] == [c, d];
    assert [c, d][1..] == [d];
    assert Join([d], '.') == d;
    assert Join([c, d], '.') == c + "." + d;
    assert Join([b, c, d], '.') == b + "." + (c + "." + d);
    assert Join([a, b, c, d], '.') == a + "." + (b + "." + (c + "." + d));
  }

  /** Lines 90-95 all find their section. */
  predicate SectionsResolve(result: Value)
  {
    forall i :: 0 <= i < |Sections| ==> At(result, Sections[i]).Some?
  }

  /** Lines 88-151: the `metrics` dict built from a parsed body, or None
      when the construction raises. */
  function Metrics(result: Value, timed: string): Option<map<string, Value>>
  {
    if !SectionsResolve(result) then None
    else match Apply(result, map[], FixedTable)
      case None => None
      case Some(m) =>
        if timed == "" then Some(m)
        else TimedFrom(result, m, Split(timed, ' '))
  }

  /** The keys of the finished dict: the 29 fixed names, plus the names of
      every timed statement; each fixed statement not overridden by a
      timed one leaves its field. With `timed` empty only the fixed names
      appear. */
  lemma MetricsKeys(result: Value, timed: string)
    requires Metrics(result, timed).Some?
    ensures AllResolve(result, DistinctTable)
    ensures timed == "" ==> Metrics(result, timed).value == Writes(result, DistinctTable)
    ensures timed != "" ==> TimedTable(result, Split(timed, ' ')).Some?
    ensures timed != "" ==>
      var t := TimedTable(result, Split(timed, ' ')).value;
      && AllResolve(result, t)
      && Metrics(result, timed).value == Writes(result, DistinctTable) + Writes(result, t)
    ensures Metrics(result, timed).value.Keys ==
      Names(DistinctTable) + (if timed == "" then {} else Names(TimedTable(result, Split(timed, ' ')).value))
  {
    RepeatsAreIdempotent(result, map[]);
    ApplyWrites(result, map[], DistinctTable);
    var fixed := Writes(result, DistinctTable);
    assert map[] + fixed == fixed;
    WritesKeys(result, DistinctTable);
    if timed != "" {
      var stats := Split(timed, ' ');
      TimedFromTable(result, fixed, stats);
      var t := TimedTable(result, stats).value;
      ApplyWrites(result, fixed, t);
      WritesKeys(result, t);
    }
  }

  /** No two of the 29 distinct statements share a name. */
  lemma DistinctTableNames()
    ensures forall i, j :: 0 <= i < j < |DistinctTable| ==> DistinctTable[i].name != DistinctTable[j].name
  {
  }

  /** Each fixed name holds exactly the field its statement reads (the
      four pools only under their literal names), unless a timed
      statement reuses the name. */
  lemma FixedValues(result: Value, timed: string)
    requires Metrics(result, timed).Some?
    ensures AllResolve(result, DistinctTable)
    ensures timed != "" ==> TimedTable(result, Split(timed, ' ')).Some?
    ensures forall i :: 0 <= i < |DistinctTable| ==>
      (timed == "" || DistinctTable[i].name !in Names(TimedTable(result, Split(timed, ' ')).value)) ==>
        && DistinctTable[i].name in Metrics(result, timed).value
        && Metrics(result, timed).value[DistinctTable[i].name] == At(result, DistinctTable[i].path).value
  {
    MetricsKeys(result, timed);
    DistinctTableNames();
    var m := Metrics(result, timed).value;
    forall i | 0 <= i < |DistinctTable| &&
      (timed == "" || DistinctTable[i].name !in Names(TimedTable(result, Split(timed, ' ')).value))
      ensures DistinctTable[i].name in m && m[DistinctTable[i].name] == At(result, DistinctTable[i].path).value
    {
      WritesLast(result, DistinctTable, i);
      if timed != "" {
        WritesKeys(result, TimedTable(result, Split(timed, ' ')).value);
      }
    }
  }

  /** A missing section or field makes the construction raise: the dict
      exists only if every section and every fixed field exists. */
  lemma MissingKeysFail(result: Value, timed: string)
    ensures Metrics(result, timed).Some? ==> SectionsResolve(result) && AllResolve(result, FixedTable)
    ensures !AllResolve(result, FixedTable) ==> Metrics(result, timed).None?
  {
    ApplyWrites(result, map[], FixedTable);
  }

  /** `publish(key, metrics[key])` for every key, each exactly once. */
  predicate PublishesEachOnce(events: seq<Event>, metrics: map<string, Value>)
  {
    && |events| == |metrics|
    && (forall i :: 0 <= i < |events| ==> events[i].Gauge? && events[i].name in metrics && events[i].value == metrics[events[i].name])
    && (forall i, j :: 0 <= i < j < |events| ==> events[i].name != events[j].name)
    && NamesOf(events) == metrics.Keys
  }

  /** What one `collect` call ends with. */
  datatype Outcome =
    | Published(metrics: map<string, Value>)
    | FetchFailed
    | Raised

  /** The answer the metrics servlet gives to a fetch of the URL: one of
      the three errors `collect` catches (lines 71-79), a body `json.load`
      rejects (lines 83-86), or a parsed document. */
  datatype Reply =
    | HttpError
    | UrlError
    | HttpException
    | Unparseable
    | Parsed(result: Value)

  /** Lines 57-154: the outcome of `collect`. An unconvertible port and a
      missing key raise out of `collect`; the fetch and parse failures are
      logged and return. */
  function Expected(config: Config, fetch: string -> Reply): Outcome
  {
    match Url(config)
    case None => Raised
    case Some(url) =>
      match fetch(url)
      case Parsed(result) =>
        (match Metrics(result, config.timed)
         case None => Raised
         case Some(m) => Published(m))
      case _ => FetchFailed
  }

  // ---------------------------------------------------------------------
  // The imperative collector

  /** Runs the assignment statements of `table` on `metrics`. */
  method Assign(result: Value, metrics: map<string, Value>, table: seq<Assignment>) returns (r: Option<map<string, Value>>)
    ensures r == Apply(result, metrics, table)
  {
    var m := metrics;
    var i := 0;
    while i < |table|
      invariant 0 <= i <= |table|
      invariant Apply(result, metrics, table) == Apply(result, m, table[i..])
    {
      var v := At(result, table[i].path);
      if v.None? {
        return None;
      }
      m := m[table[i].name := v.value];
      assert table[i..][1..] == table[i + 1..];
      i := i + 1;
    }
    return Some(m);
  }

  /** Lines 88-151: fills the `metrics` dict. */
  method BuildMetrics(result: Value, timed: string) returns (r: Option<map<string, Value>>)
    ensures r == Metrics(result, timed)
  {
    var s := 0;
    while s < |Sections|
      invariant 0 <= s <= |Sections|
      invariant forall i :: 0 <= i < s ==> At(result, Sections[i]).Some?
    {
      if At(result, Sections[s]).None? {
        return None;
      }
      s := s + 1;
    }
    r := Assign(result, map[], FixedTable);
    if r.None? || timed == "" {
      return;
    }
    var metrics := r.value;
    ghost var fixed := metrics;
    var stats := Split(timed, ' ');
    var i := 0;
    while i < |stats|
      invariant 0 <= i <= |stats|
      invariant TimedFrom(result, fixed, stats) == TimedFrom(result, metrics, stats[i..])
    {
      var stat := stats[i];
      assert stats[i..][0] == stat && stats[i..][1..] == stats[i + 1..];
      var section := At(result, [stat]);
      if section.None? {
        return None;
      }
      var resources := IterKeys(section.value);
      if resources.None? {
        return None;
      }
      ghost var before := metrics;
      var j := 0;
      while j < |resources.value|
        invariant 0 <= j <= |resources.value|
        invariant Apply(result, before, ResourceRows(stat, resources.value)) ==
          Apply(result, metrics, ResourceRows(stat, resources.value[j..]))
      {
        var resource := resources.value[j];
        assert resources.value[j..][0] == resource && resources.value[j..][1..] == resources.value[j + 1..];
        ApplyConcat(result, metrics, TimedRows(stat, resource), ResourceRows(stat, resources.value[j + 1..]));
        var next := Assign(result, metrics, TimedRows(stat, resource));
        if next.None? {
          return None;
        }
        metrics := next.value;
        j := j + 1;
      }
      i := i + 1;
    }
    return Some(metrics);
  }

  /** The names of a sequence of events. */
  function NamesOf(events: seq<Event>): set<string>
  {
    set i | 0 <= i < |events| :: events[i].name
  }

  lemma NamesOfAppend(events: seq<Event>, e: Event)
    ensures NamesOf(events + [e]) == NamesOf(events) + {e.name}
  {
    var all := events + [e];
    forall k | k in NamesOf(events) ensures k in NamesOf(all) {
      var i :| 0 <= i < |events| && events[i].name == k;
      assert all[i] == events[i];
    }
    assert all[|events|] == e;
  }

  /** The publish loop after it has published `events`, with the keys in
      `remaining` still to go. */
  predicate PublishedSoFar(events: seq<Event>, metrics: map<string, Value>, remaining: set<string>)
  {
    && remaining <= metrics.Keys
    && |events| + |remaining| == |metrics|
    && (forall i :: 0 <= i < |events| ==> events[i].Gauge? && events[i].name in metrics && events[i].value == metrics[events[i].name])
    && (forall i, j :: 0 <= i < j < |events| ==> events[i].name != events[j].name)
    && NamesOf(events) == metrics.Keys - remaining
  }

  /** Publishing one more key that is still to go keeps the loop's
      invariant. */
  lemma PublishOne(events: seq<Event>, metrics: map<string, Value>, remaining: set<string>, key: string)
    requires PublishedSoFar(events, metrics, remaining) && key in remaining
    ensures PublishedSoFar(events + [Gauge(key, metrics[key])], metrics, remaining - {key})
  {
    var e := Gauge(key, metrics[key]);
    NamesOfAppend(events, e);
    var all := events + [e];
    forall i, j | 0 <= i < j < |all| ensures all[i].name != all[j].name {
      if j == |events| {
        assert all[i].name in NamesOf(events);
      } else {
        assert all[i] == events[i] && all[j] == events[j];
      }
    }
  }

  /** Lines 153-154: publishes every entry of `metrics`, in the dict's
      own order, which the model leaves open. */
  method PublishAll(metrics: map<string, Value>) returns (events: seq<Event>)
    ensures PublishesEachOnce(events, metrics)
  {
    events := [];
    var remaining := metrics.Keys;
    while remaining != {}
      invariant PublishedSoFar(events, metrics, remaining)
      decreases |remaining|
    {
      var key :| key in remaining;
      PublishOne(events, metrics, remaining, key);
      events := events + [Gauge(key, metrics[key])];
      remaining := remaining - {key};
    }
  }

  /** `collect()` (lines 53-154), with the servlet's reply supplied by
      `fetch`: the events it publishes and how it ends. Nothing is
      published unless the whole dict was built. */
  method Collect(config: Config, fetch: string -> Reply) returns (events: seq<Event>, outcome: Outcome)
    ensures outcome == Expected(config, fetch)
    ensures outcome.Published? ==> PublishesEachOnce(events, outcome.metrics)
    ensures !outcome.Published? ==> events == []
  {
    events := [];
    var proto := if Truthy(config.secure) then "https" else "http";
    var port := PortNumber(config.port);
    if port.None? {
      return [], Raised;
    }
    var url := proto + "://" + config.host + ":" + FormatInt(port.value) + "/" + config.urlPath;
    match fetch(url) {
      case Parsed(result) =>
        var metrics := BuildMetrics(result, config.timed);
        if metrics.None? {
          return [], Raised;
        }
        events := PublishAll(metrics.value);
        outcome := Published(metrics.value);
      case _ =>
        outcome := FetchFailed;
    }
  }
}
