/**
 * The part of loguru's logger the bridge relies on: a registry of sinks with
 * increasing ids, and the records emitted through it. Formatting, threshold
 * fan-out and the physical sinks are not modelled.
 */
module Loguru {
  import opened Wrappers
  import opened Levels

  datatype Target = Stderr | Stdout | LogFile | DebugLogFile

  /** Which format template a sink renders with. */
  datatype Format = DefaultFormat | Standard | Extended

  datatype Sink = Sink(id: nat, target: Target, level: string, format: Format)

  /**
   * One emitted record: its level, message, the opt(depth=...) it was logged with,
   * the forwarded exception, and the ids of the sinks registered when it was emitted.
   */
  datatype Record = Record(level: Level, message: string, depth: nat, exception: Option<string>, sinkIds: seq<nat>)

  /** The sink loguru installs at import time: id 0, stderr, DEBUG. */
  const DefaultSink := Sink(0, Stderr, "DEBUG", DefaultFormat)

  function SinkIds(sinks: seq<Sink>): seq<nat>
  {
    seq(|sinks|, k requires 0 <= k < |sinks| => sinks[k].id)
  }

  predicate HasSink(sinks: seq<Sink>, id: nat)
  {
    exists k :: 0 <= k < |sinks| && sinks[k].id == id
  }

  /** The registry after removing sink `id`: every other sink. */
  function Without(sinks: seq<Sink>, id: nat): (rest: seq<Sink>)
    ensures !HasSink(rest, id)
    ensures forall k :: 0 <= k < |rest| ==> rest[k] in sinks
    ensures forall k :: 0 <= k < |sinks| && sinks[k].id != id ==> sinks[k] in rest
    ensures !HasSink(sinks, id) ==> rest == sinks
  {
    if sinks == [] then []
    else if sinks[0].id == id then Without(sinks[1..], id)
    else [sinks[0]] + Without(sinks[1..], id)
  }

  class Logger {
    var sinks: seq<Sink>
    /** The id the next logger.add hands out. */
    var nextId: nat
    var records: seq<Record>

    ghost predicate Valid()
      reads this
    {
      forall k :: 0 <= k < |sinks| ==> sinks[k].id < nextId
    }

    /** The logger as imported: only the default sink, nothing emitted. */
    constructor ()
      ensures Valid()
      ensures sinks == [DefaultSink] && nextId == 1 && records == []
    {
      sinks := [DefaultSink];
      nextId := 1;
      records := [];
    }

    /**
     * logger.add: draws the next id first, then registers the sink unless the
     * destination cannot be opened (`opens` is false: a file sink creates its file
     * when it is added) or the level name is unknown; both of those raise.
     */
    method Add(target: Target, level: string, format: Format, opens: bool) returns (added: bool)
      requires Valid()
      modifies this
      ensures Valid()
      ensures added <==> opens && level in LoguruLevels
      ensures sinks == old(sinks) + (if added then [Sink(old(nextId), target, level, format)] else [])
      ensures nextId == old(nextId) + 1
      ensures records == old(records)
    {
      var id := nextId;
      nextId := nextId + 1;
      added := opens && level in LoguruLevels;
      if added {
        sinks := sinks + [Sink(id, target, level, format)];
      }
    }

    /** logger.remove: refuses an id that is not registered, else drops that sink. */
    method Remove(id: nat) returns (found: bool)
      requires Valid()
      modifies this
      ensures Valid()
      ensures found <==> HasSink(old(sinks), id)
      ensures sinks == Without(old(sinks), id)
      ensures nextId == old(nextId) && records == old(records)
    {
      found := exists k :: 0 <= k < |sinks| && sinks[k].id == id;
      sinks := Without(sinks, id);
    }

    /**
     * logger.opt(depth=..., exception=...).log(level, message). With no sink
     * registered loguru returns at once, without looking at the level. Otherwise it
     * raises on an unknown level name or a negative number, and else emits the record.
     */
    method Log(level: Level, message: string, depth: nat, exception: Option<string>) returns (ok: bool)
      modifies this
      ensures ok <==> sinks == [] || Accepted(LoguruLevels, level)
      ensures records == old(records) +
        (if sinks != [] && Accepted(LoguruLevels, level) then [Record(level, message, depth, exception, SinkIds(sinks))] else [])
      ensures sinks == old(sinks) && nextId == old(nextId)
    {
      if sinks == [] {
        return true;
      }
      ok := match level
        case Named(n) => n in LoguruLevels
        case Numeric(no) => no >= 0;
      if ok {
        records := records + [Record(level, message, depth, exception, SinkIds(sinks))];
      }
    }
  }
}
