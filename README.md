# Diamond collectors for MongoDB and Dropwizard, modelled in Dafny

This project models two metrics collectors of the Diamond statistics daemon.

**MongoDB collector** (`src/collectors/mongodb/mongodb.py`).
- It connects to each configured host and publishes every numeric leaf of `serverStatus`, `dbStats` and `collstats` under its dotted path.
- It republishes parts of five `serverStatus` sections under `_per_sec` names, through `publish_counter` for the first level below each name. These are all of `opcounters`, `opcountersRepl` and `network`, plus the single keys `backgroundFlushing.flushes` and `extra_info.page_faults`.
- It derives two percentage counters (global lock time, b-tree index misses) from cumulative totals kept between cycles.
- It publishes per-database read and write lock times.

The collector is the class `MongoCollector.MongoDBCollector`. Its two fields are `totals` (the collector's `__totals` dict) and `published` (the log of every publish call). Each of its methods is proved against a specification function:
- `MongoWalk`: the recursive flattener;
- `MongoDerive`: counters, `get_dotted_value`, `compute_interval`, `publish_percent`, the lock aggregation;
- `MongoCollect`: hosts, prefixes, database and collection filtering.

The properties of those functions are proved as lemmas.

**Dropwizard collector** (`src/collectors/dropwizard/dropwizard.py`).
- It composes the metrics servlet's URL and fetches and parses its JSON body.
- It fills a flat `metrics` dict from 42 fixed assignments (29 distinct names) and from the configured "timed" sections.
- It publishes every entry of that dict.

`Dropwizard.BuildMetrics` runs the assignments as a table. `Dropwizard.Collect` is the whole call, with the fetch supplied as a parameter.

Shared modules:
- `Document`: decoded BSON/JSON values with Python 2 truthiness.
- `Dotted`: `'.'.join` and `str.split` for one separator, with their round trips.
- `Sink`: the publish calls (`publish` is `Gauge`, `publish_counter` is `Counter`).

Exceptions are modelled as values:
- a function returns `None`;
- an `Emission` has `completed == false`;
- a run's outcome is `Raised` or `ConnectFailed`.

Whatever was published before the exception stays published.

## Model

| member | source | states |
|---|---|---|
| Document.Lookup | src/collectors/mongodb/mongodb.py:198-200 | `key in data` fails exactly when no entry has the key; otherwise the value returned is stored under the key |
| Document.AsReal | src/collectors/mongodb/mongodb.py:175-176 | the numeric value of a number is zero exactly when Python finds it falsy (`if value:`) |
| Document.IterKeys | src/collectors/mongodb/mongodb.py:193-194 | `for key in d: d[key]` visits a dict's keys in order; on any other value it either raises or visits nothing, and the value is then falsy |
| Dotted.Split | src/collectors/mongodb/mongodb.py:132 | `split('.')` gives at least one part and no part holds the separator |
| Dotted.JoinSplit | src/collectors/mongodb/mongodb.py:132 | joining the parts of a split gives back the string |
| Dotted.SplitJoin | src/collectors/mongodb/mongodb.py:132 | splitting a join of dot-free parts gives back the parts |
| Dotted.SplitConcat | src/collectors/mongodb/mongodb.py:171-174 | splitting at a separator splits the two sides independently |
| Dotted.JoinConcat | src/collectors/mongodb/mongodb.py:201-208 | joining `prefix + [key]` puts exactly one dot between the two joins |
| Sink.Emit | src/collectors/mongodb/mongodb.py:207-210 | a publish call carries the given name and value, and is a counter exactly when `publishfn` is `publish_counter` |
| MongoWalk.Published | src/collectors/mongodb/mongodb.py:204-210 | a leaf is published exactly when it is an int, bool, float or long; a long `l` becomes `float(l)`, and every other number is passed unchanged |
| MongoWalk.MetricOutcome | src/collectors/mongodb/mongodb.py:196-200 | on a dict it publishes the key's subtree; on anything else it raises or publishes nothing |
| MongoWalk.SectionEvents | src/collectors/mongodb/mongodb.py:192-194 | `_publish_dict_with_prefix` raises exactly when its loop raises; on a dict it publishes each key in order; on any other value it publishes nothing |
| MongoWalk.LeafEventsFlatten | src/collectors/mongodb/mongodb.py:196-210 | `_publish_metrics` publishes exactly one event per numeric leaf, in iteration order, named by its dotted path; only the leaf directly under the key uses `publishfn`, and every deeper leaf uses plain `publish` |
| MongoWalk.DictEventsFlatten | src/collectors/mongodb/mongodb.py:192-210 | `_publish_dict_with_prefix` publishes one event per numeric leaf below the dict; first-level leaves go through `publishfn` |
| MongoWalk.LeafEventsBelow | src/collectors/mongodb/mongodb.py:201-208 | every event published for `keys` is named `'.'.join(keys)` or an extension of it |
| MongoWalk.DictEventsBelow | src/collectors/mongodb/mongodb.py:192-208 | every event published under a non-empty prefix starts with `'.'.join(prefix) + '.'` |
| MongoDerive.DescendResult | src/collectors/mongodb/mongodb.py:131-137 | `get_dotted_value` returns either the literal 0 or a truthy value stored at that path |
| MongoDerive.DescendZero | src/collectors/mongodb/mongodb.py:131-137 | `get_dotted_value` returns 0 exactly when it does not raise and some step of the path is missing or falsy |
| MongoDerive.DescendFound | src/collectors/mongodb/mongodb.py:131-137 | when every step of the path exists and is truthy, it returns the value stored there |
| MongoDerive.MissingFirstSegmentIsZero | src/collectors/mongodb/mongodb.py:133-136 | a dict without the first segment yields 0 |
| MongoDerive.LeadingDotIsZero | src/collectors/mongodb/mongodb.py:172-174 | the `R` path starts with `.`, so in a dict without an empty key it reads 0 |
| MongoDerive.NamedPathSplits | src/collectors/mongodb/mongodb.py:131-134 | for a name made of dot-free segments, `get_dotted_value` walks exactly those segments |
| MongoDerive.IntervalsTelescope | src/collectors/mongodb/mongodb.py:139-145 | over any run of cycles, the reported intervals add up to the last total minus the first stored total (or the first total, when none was stored); the stored total becomes the last one |
| MongoDerive.TrackIndependent | src/collectors/mongodb/mongodb.py:142-144 | updates under two different total keys commute and do not affect each other's intervals |
| MongoDerive.ResetReportsNegative | src/collectors/mongodb/mongodb.py:142-144 | for any totals `a` then `b < a` under a new key: the first sight reports 0, the second reports `b - a`, which is negative because nothing clamps it, and `b` is stored |
| MongoDerive.PercentFacts | src/collectors/mongodb/mongodb.py:147-152 | the percent counter is named `'.'.join(base_prefix) + '.percent.' + value_name`; its value is 100 times the dotted value; its interval is current minus last total (0 on first sight); `time_delta` is true exactly when the interval is non-zero; the current total is stored |
| MongoDerive.Then | src/collectors/mongodb/mongodb.py:113-129 | after a raise the chain is left exactly as it was; otherwise a step that raises adds nothing and stops the chain, and a step that completes appends exactly its events |
| MongoDerive.MissingSectionsPublishNothing | src/collectors/mongodb/mongodb.py:113-129 | a `serverStatus` without any of the five counter sections republishes nothing and completes |
| MongoDerive.SectionLeaves | src/collectors/mongodb/mongodb.py:113-125 | a republished section publishes one event per numeric leaf below it, the first level as counters; a section that is not a dict publishes nothing |
| MongoDerive.TakenLeaves | src/collectors/mongodb/mongodb.py:119-129 | a single republished key (`flushes`, `page_faults`) publishes the numeric leaves below that key, every one named below `'.'.join(prefix + [name, key])`, so no other child of the section is published |
| MongoDerive.CounterSectionsLeaves | src/collectors/mongodb/mongodb.py:113-129 | when none raises, the five republications publish, in order, the leaves of `opcounters` and `opcountersRepl`, those below `backgroundFlushing.flushes`, the leaves of `network`, and those below `extra_info.page_faults` |
| MongoDerive.Put | src/collectors/mongodb/mongodb.py:161 | `d[key] = v` stores `v` under `key` and leaves every other key as it was |
| MongoDerive.Remove | src/collectors/mongodb/mongodb.py:162 | `del d[key]` removes `key` and leaves every other key as it was |
| MongoDerive.PutDistinct | src/collectors/mongodb/mongodb.py:161 | the assignment keeps the keys of the dict distinct |
| MongoDerive.RemoveDistinct | src/collectors/mongodb/mongodb.py:162 | the deletion keeps the keys of the dict distinct |
| MongoDerive.RenameGlobal | src/collectors/mongodb/mongodb.py:160-162 | after the rename no `.` entry is left; `_global_` holds what `.` held; every other key is unchanged; a dict without `.` is left as it is |
| MongoDerive.LockNameSplit | src/collectors/mongodb/mongodb.py:169-185 | `'<db>.timeLockedMicros.<f>'` splits into the database name's own segments, then `timeLockedMicros` and `f`; the leading-dot form adds an empty first segment |
| MongoDerive.LocksRunStops | src/collectors/mongodb/mongodb.py:166-190 | once a database name raises, the loop is over and no later name publishes |
| MongoDerive.LockStepFacts | src/collectors/mongodb/mongodb.py:166-190 | a name that fails the databases filter publishes nothing; any other name publishes at most a non-zero read counter and a non-zero write counter, named `key_prefix + 'locks.<db>.read'` and `'.write'`, carrying the uptime interval, with `time_delta` exactly when that interval is non-zero |
| MongoDerive.LockStepValues | src/collectors/mongodb/mongodb.py:169-190 | for a name that passes the filter, the read total is `float(r + R) / 10` and the write total `float(w + W) / 10`, with the four values read by `get_dotted_value` at the source's dotted names; each is published as a counter with the uptime interval exactly when it is non-zero, read before write; the step completes exactly when all four are numbers |
| MongoDerive.LocksRunNames | src/collectors/mongodb/mongodb.py:163-190 | every lock counter belongs to a database name that is in `locks` and passes the filter |
| MongoDerive.KeepsTotalsTrans | src/collectors/mongodb/mongodb.py:139-145 | totals kept outside two sets of touched keys are kept outside their union |
| MongoDerive.IntervalKeeps | src/collectors/mongodb/mongodb.py:141-144 | `compute_interval` writes only its own total key |
| MongoDerive.PercentTotals | src/collectors/mongodb/mongodb.py:147-152 | the totals `publish_percent` leaves are those of its `compute_interval` |
| MongoDerive.LocksKeeps | src/collectors/mongodb/mongodb.py:158-190 | the lock aggregation writes only the `uptimeMillis` total |
| MongoDerive.DerivedTotals | src/collectors/mongodb/mongodb.py:154-190 | when the first percent raises, the totals are unchanged; when the second raises, they are those of the first `compute_interval`; otherwise the lock block runs on the totals of the second `compute_interval` |
| MongoDerive.TransformedTotalsFrame | src/collectors/mongodb/mongodb.py:111-190 | `_publish_transformed` changes at most three `__totals` entries: `globalLock.totalTime`, `indexCounters.btree.accesses` and `uptimeMillis` under the base prefix |
| MongoCollect.EffectiveHosts | src/collectors/mongodb/mongodb.py:71-72 | a `host` setting replaces `hosts` with a one-element list; otherwise `hosts` is used |
| MongoCollect.Sanitize | src/collectors/mongodb/mongodb.py:79 | every `:` and `.` of the host becomes `_`; every other character is kept |
| MongoCollect.BasePrefix | src/collectors/mongodb/mongodb.py:75-79 | the prefix is empty exactly when there is one host; otherwise it is the sanitized host, which is a single dotted segment |
| MongoCollect.KeptCollections | src/collectors/mongodb/mongodb.py:102-104 | a collection is kept exactly when it is in the database and the ignore pattern does not match it |
| MongoCollect.KeptDatabases | src/collectors/mongodb/mongodb.py:96-98 | a database is kept exactly when it is on the server and the databases pattern matches it |
| MongoCollect.CollectionsEventsConcat | src/collectors/mongodb/mongodb.py:102-109 | the collection loop over two lists publishes the first list's events, then the second's |
| MongoCollect.DatabasesEventsConcat | src/collectors/mongodb/mongodb.py:96-109 | the database loop over two lists publishes the first list's events, then the second's |
| MongoCollect.IgnoredCollectionsPublishNothing | src/collectors/mongodb/mongodb.py:102-109 | the collection loop publishes exactly what it publishes for the non-ignored collections |
| MongoCollect.FilteredDatabasesPublishNothing | src/collectors/mongodb/mongodb.py:96-109 | the database loop publishes exactly what it publishes for the databases that pass the filter: neither their `dbStats` nor their collections |
| MongoCollect.CollectionsBelow | src/collectors/mongodb/mongodb.py:107-109 | every collection metric is named below its database prefix |
| MongoCollect.DatabasesEventsNamed | src/collectors/mongodb/mongodb.py:96-109 | every database metric is named below `base_prefix + ['databases', db]` for a database that passes the filter |
| MongoCollect.DatabasesBelow | src/collectors/mongodb/mongodb.py:100-109 | every database metric is named below the base prefix |
| MongoCollect.CounterSectionsBelow | src/collectors/mongodb/mongodb.py:113-129 | the counter republications are named below the base prefix |
| MongoCollect.LocksLoopBelow | src/collectors/mongodb/mongodb.py:166-190 | every lock counter is named below `key_prefix` |
| MongoCollect.LocksBelow | src/collectors/mongodb/mongodb.py:158-190 | every lock counter is named below the base prefix |
| MongoCollect.PercentBelow | src/collectors/mongodb/mongodb.py:150 | the percent counters are named below the base prefix |
| MongoCollect.DerivedBelow | src/collectors/mongodb/mongodb.py:146-190 | the percent and lock counters are named below the base prefix |
| MongoCollect.TransformedBelow | src/collectors/mongodb/mongodb.py:111-190 | everything `_publish_transformed` publishes under a non-empty prefix is named below it |
| MongoCollect.HostBelow | src/collectors/mongodb/mongodb.py:91-109 | everything published for one host is named below its base prefix |
| MongoCollect.RunHostsNamed | src/collectors/mongodb/mongodb.py:74-109 | every event of the host loop comes from a host whose connection succeeded |
| MongoCollect.CollectNamesCarryHost | src/collectors/mongodb/mongodb.py:74-109 | with more than one host, every metric is named after the sanitized name of a host that connected, then `.` |
| MongoCollect.RunHostsStops | src/collectors/mongodb/mongodb.py:81-90 | once `collect` has returned, later hosts change nothing |
| MongoCollect.RefusedStopsCollect | src/collectors/mongodb/mongodb.py:81-90 | a refused connection ends `collect` with what was published so far; no later host is contacted |
| MongoCollect.SingleHostPercentName | src/collectors/mongodb/mongodb.py:75-77 | with one host the percent counters are named `.percent.<value_name>`, with a leading dot |
| MongoCollector.GetDottedValue | src/collectors/mongodb/mongodb.py:131-137 | the loop of `get_dotted_value` computes `Descend` |
| MongoCollector.NoCharPasses | src/collectors/mongodb/mongodb.py:166-168 | a string `locks` completes exactly when none of its characters passes the databases filter |
| MongoCollector.NoItemPasses | src/collectors/mongodb/mongodb.py:166-168 | a list `locks` completes exactly when every element is a string that fails the databases filter |
| MongoCollector.MongoDBCollector.constructor | src/collectors/mongodb/mongodb.py:31-33 | the totals start empty and nothing is published |
| MongoCollector.ContainsKey | src/collectors/mongodb/mongodb.py:198 | Python's `key in s` on a string finds `key` exactly when it occurs as a substring of `s` |
| MongoCollector.MongoDBCollector.PublishMetrics | src/collectors/mongodb/mongodb.py:196-210 | publishes exactly `MetricOutcome`, and raises exactly when it is None |
| MongoCollector.MongoDBCollector.PublishDictWithPrefix | src/collectors/mongodb/mongodb.py:192-194 | publishes exactly `SectionEvents`, and raises exactly when it is None |
| MongoCollector.MongoDBCollector.ComputeInterval | src/collectors/mongodb/mongodb.py:139-145 | returns the interval of `IntervalSpec` and stores its totals; on a non-numeric total it raises and leaves the totals alone |
| MongoCollector.MongoDBCollector.PublishPercent | src/collectors/mongodb/mongodb.py:147-152 | publishes the single counter of `PercentSpec` and stores its totals, or raises and changes nothing |
| MongoCollector.MongoDBCollector.PublishLockStep | src/collectors/mongodb/mongodb.py:167-190 | publishes the events of `LockStep` for one name |
| MongoCollector.MongoDBCollector.PublishLockAt | src/collectors/mongodb/mongodb.py:166-190 | one pass of the lock loop extends the log by that name's events; after a raise, the rest of the loop adds nothing |
| MongoCollector.MongoDBCollector.PublishLocksDict | src/collectors/mongodb/mongodb.py:166-190 | the lock loop over a dict publishes `LocksRun` over all its names |
| MongoCollector.MongoDBCollector.PublishLocksLoop | src/collectors/mongodb/mongodb.py:166-190 | the lock loop over any truthy `locks` publishes `LocksLoop` |
| MongoCollector.MongoDBCollector.PublishLocks | src/collectors/mongodb/mongodb.py:158-190 | the lock aggregation publishes the events of `LocksSpec` and stores its totals |
| MongoCollector.MongoDBCollector.ThenSection | src/collectors/mongodb/mongodb.py:113-125 | one counter republication of a section, chained after the previous one |
| MongoCollector.MongoDBCollector.ThenMetric | src/collectors/mongodb/mongodb.py:119-129 | one counter republication of a single key, chained after the previous one |
| MongoCollector.MongoDBCollector.PublishCounterSections | src/collectors/mongodb/mongodb.py:113-129 | the five counter republications publish `CounterSections` |
| MongoCollector.MongoDBCollector.PublishPercents | src/collectors/mongodb/mongodb.py:154-156 | the lock-time percentage, then the index-miss percentage, each with its own totals; a raise in the first skips the second |
| MongoCollector.MongoDBCollector.PublishDerived | src/collectors/mongodb/mongodb.py:154-190 | the percent counters, then the locks, publish `DerivedSpec` and store its totals |
| MongoCollector.MongoDBCollector.PublishTransformed | src/collectors/mongodb/mongodb.py:111-190 | `_publish_transformed` publishes `TransformedSpec` and stores its totals |
| MongoCollector.MongoDBCollector.PublishCollections | src/collectors/mongodb/mongodb.py:102-109 | the collection loop publishes `CollectionsEvents` |
| MongoCollector.MongoDBCollector.PublishDatabase | src/collectors/mongodb/mongodb.py:97-109 | one database publishes `DatabaseEvents` |
| MongoCollector.MongoDBCollector.PublishDatabases | src/collectors/mongodb/mongodb.py:96-109 | the database loop publishes `DatabasesEvents` |
| MongoCollector.MongoDBCollector.PublishHost | src/collectors/mongodb/mongodb.py:91-109 | one connected host extends the run by `HostStep`: status, derived metrics, databases |
| MongoCollector.MongoDBCollector.VisitHost | src/collectors/mongodb/mongodb.py:74-109 | one pass of the host loop; once it stops the run, the remaining hosts change nothing |
| MongoCollector.MongoDBCollector.Collect | src/collectors/mongodb/mongodb.py:63-109 | `collect` publishes `CollectSpec`'s events, stores its totals and ends as it says |
| Dropwizard.DigitChar | src/collectors/dropwizard/dropwizard.py:65 | a digit is written as the character for that digit |
| Dropwizard.FormatNat | src/collectors/dropwizard/dropwizard.py:62-65 | `'%i'` of a natural number is a non-empty string of digits |
| Dropwizard.DigitsFormat | src/collectors/dropwizard/dropwizard.py:62-65 | the digits written for a number read back as that number |
| Dropwizard.FormatParse | src/collectors/dropwizard/dropwizard.py:62-65 | `int('%i' % n) == n` for every integer, negative ones included |
| Dropwizard.SchemePrefix | src/collectors/dropwizard/dropwizard.py:57-60 | the URL starts with `https://` exactly when `secure` is truthy, and with `http://` exactly when it is not |
| Dropwizard.UrlFacts | src/collectors/dropwizard/dropwizard.py:57-67 | a URL exists exactly when `int(port)` succeeds; it starts with `https://` exactly when `secure` is truthy, and with `http://` exactly when it is not |
| Dropwizard.UrlParts | src/collectors/dropwizard/dropwizard.py:62-67 | in the URL, the scheme and `://` are followed by the host, `:`, the port written by `'%i'`, `/` and the path, in that order |
| Dropwizard.UrlPort | src/collectors/dropwizard/dropwizard.py:62-67 | the digits between the host's `:` and the path's `/` read back with `int()` as the configured port |
| Dropwizard.ApplyWrites | src/collectors/dropwizard/dropwizard.py:88-143 | the assignments succeed exactly when every field they read exists; the dict is then the old one updated by what the table writes |
| Dropwizard.WritesKeys | src/collectors/dropwizard/dropwizard.py:97-143 | the assignments set exactly the names they mention |
| Dropwizard.WritesLast | src/collectors/dropwizard/dropwizard.py:97-143 | an assignment that no later one overrides leaves its field under its name |
| Dropwizard.WritesConcat | src/collectors/dropwizard/dropwizard.py:97-143 | two blocks of assignments write the first block's dict updated by the second's |
| Dropwizard.AllResolveConcat | src/collectors/dropwizard/dropwizard.py:97-143 | two blocks both resolve exactly when their concatenation does |
| Dropwizard.ApplyTwice | src/collectors/dropwizard/dropwizard.py:105-143 | running the same block twice in a row has the effect of running it once |
| Dropwizard.RepeatsAreIdempotent | src/collectors/dropwizard/dropwizard.py:105-143 | the repeated lines 110-113 and 134-143 change nothing: the source-order table equals the 29 distinct assignments |
| Dropwizard.ApplyConcat | src/collectors/dropwizard/dropwizard.py:97-151 | running two blocks of assignments is running the first, then the second on its result, stopping at the first that raises |
| Dropwizard.TimedFromTable | src/collectors/dropwizard/dropwizard.py:146-151 | the timed loop runs exactly the assignments of `TimedTable`, in order; it raises when a section is missing or not iterable |
| Dropwizard.TimedRowsNamed | src/collectors/dropwizard/dropwizard.py:149-151 | each resource adds `stat.resource.duration.mean`, `.duration.p98` and `.rate.1MinuteRate`, read from `duration.mean`, `duration.p98` and `rate.m1` |
| Dropwizard.JoinFour | src/collectors/dropwizard/dropwizard.py:149-151 | `'.'.join` of four parts puts a dot between each pair |
| Dropwizard.MetricsKeys | src/collectors/dropwizard/dropwizard.py:88-151 | the finished dict holds the 29 fixed names plus the names of every timed assignment, and nothing else; its values are the fixed writes updated by the timed writes |
| Dropwizard.DistinctTableNames | src/collectors/dropwizard/dropwizard.py:97-132 | no two of the 29 distinct assignments share a name |
| Dropwizard.FixedValues | src/collectors/dropwizard/dropwizard.py:97-132 | each fixed name that no timed name overrides holds exactly the field its assignment reads |
| Dropwizard.MissingKeysFail | src/collectors/dropwizard/dropwizard.py:90-132 | a dict is built only when every section and every fixed field exists; a missing fixed field makes the construction raise |
| Dropwizard.NamesOfAppend | src/collectors/dropwizard/dropwizard.py:153-154 | publishing one more event adds its name to the names published |
| Dropwizard.PublishOne | src/collectors/dropwizard/dropwizard.py:153-154 | publishing a key that is still to go keeps the loop's invariant: each key published once, with its value |
| Dropwizard.Assign | src/collectors/dropwizard/dropwizard.py:97-143 | the assignment loop computes `Apply` |
| Dropwizard.BuildMetrics | src/collectors/dropwizard/dropwizard.py:88-151 | builds exactly the `Metrics` dict, or raises when it is None |
| Dropwizard.PublishAll | src/collectors/dropwizard/dropwizard.py:153-154 | every key of `metrics` is published exactly once, with its value, and nothing else is |
| Dropwizard.Collect | src/collectors/dropwizard/dropwizard.py:57-154 | `collect` ends as `Expected` says: it raises on a bad port or a missing field; it returns without publishing on a fetch or parse failure; otherwise it publishes every entry of the metrics dict once |

## Left out

- The `pymongo is None` check (mongodb.py:66-68) and the `json is None` check (dropwizard.py:54-56): these depend on module imports, not on the collected data.
- Network I/O is not modelled. The MongoDB connection and the commands `serverStatus`, `database_names`, `dbStats`, `collection_names` and `collstats` are the inputs `connect` and `Server`. The Dropwizard `urlopen` and `json.load` are the input `fetch`, which returns a `Reply`. The `ReadPreference` choice (mongodb.py:82-87) only changes connection options.
- The regular expressions `databases` and `ignore_collections` are modelled as predicates `string -> bool` that stand for `re.compile(...).search`. Regex matching itself is not modelled.
- Floats are modelled as exact reals. IEEE rounding of `float(...) * 100`, `/ 10` and of longs converted to float is not modelled.
- MongoDerive.PercentSpec treats a string value in `str * 100` as raising. In Python, a numeric string can survive `float("1"*100)`. Such strings would be server-supplied values in numeric fields, which `serverStatus` does not produce.
- MongoDerive.LockTime treats `r + R` on two strings as raising. Python concatenates them, and `float` can then succeed on a numeric result. `serverStatus` reports lock times as numbers.
- Dropwizard.PortNumber reads `int(port)` on strings as an optional sign and ASCII digits. Python 2's `int()` also accepts surrounding whitespace, and non-ASCII digits in a `unicode` value; the model leaves both out.
- BSON types that have no JSON counterpart (the `localTime` datetime, `ObjectId`, `Timestamp`) have no `Value` case of their own. They are modelled as a non-empty `Str` leaf: the flattener skips them, because MongoWalk.Published is None on every non-number, and `Truthy` holds of them, as it does of these objects in Python.
- Python 2 dict iteration order is modelled as the order of the document's entries.
- Dropwizard.PublishAll leaves the publish order open, because it is the dict's own order.
- The in-place rename of `locks['.']` to `_global_` (mongodb.py:160-162) is modelled on a value. Nothing reads `locks` afterwards, and `serverStatus` was already published before the rename, so updating the dict in place is not observable.
- Diamond's `publish`/`publish_counter` internals (path prefixing, precision, the counter's rate computation) are not modelled. An event records the name, the value, `time_delta` and `interval` it was called with.
- `get_default_config` and `get_default_config_help` of both collectors are not modelled. They are static data. As written, the Dropwizard default at dropwizard.py:43-44 lacks a comma after `'timed': ''`, so the module does not parse.
- The model follows the code as written in these places:
  - the first sight of a total reports an interval of 0, not the total;
  - a failed connection returns from `collect` and skips the remaining hosts;
  - the memory-pool names of dropwizard.py:120-123 have no fallback, so a missing pool raises;
  - a missing Dropwizard field raises out of `collect` rather than reading 0, and there are no per-section toggles;
  - booleans are published by the flattener, because `isinstance(True, int)` holds in Python.
- The `R` path of mongodb.py:172-174 starts with a dot. It is modelled as written, so `R` reads 0 unless `locks` has an empty key (MongoDerive.LeadingDotIsZero).
- Timed names (dropwizard.py:149-151) can coincide with fixed names or with each other. The model keeps the last write, as the dict does. Dropwizard.FixedValues states only the values that are not overridden.
