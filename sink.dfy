/** What a collector hands to Diamond's publishing sink. The sink itself
    (`Collector.publish`, `Collector.publish_counter`) is not part of this
    model: a call is recorded as an event appended to an output log. */
module Sink {
  import opened Document

  /** One publish call. `Gauge` is `publish(name, value)`; `Counter` is
      `publish_counter(name, value, time_delta=.., interval=..)`, whose
      defaults are `time_delta=True, interval=None`. */
  datatype Event =
    | Gauge(name: string, value: Value)
    | Counter(name: string, value: Value, timeDelta: bool, interval: Option<real>)

  /** The `publishfn` argument: `self.publish` or `self.publish_counter`. */
  datatype Publisher = Plain | AsCounter

  /** `publishfn(name, value)` with the publisher's default options. */
  function Emit(p: Publisher, name: string, value: Value): (e: Event)
    ensures e.name == name && e.value == value
    ensures e.Counter? <==> p == AsCounter
  {
    match p
    case Plain => Gauge(name, value)
    case AsCounter => Counter(name, value, true, None)
  }

  /** The events a step published, and whether it finished without raising.
      When it raised, `events` are those published before the exception. */
  datatype Emission = Emission(events: seq<Event>, completed: bool)

  /** Publishing `a` and then `b` leaves the same log as publishing
      `a + b`. */
  lemma AppendTwice(log: seq<Event>, a: seq<Event>, b: seq<Event>)
    ensures log + a + b == log + (a + b)
  {
  }
}
