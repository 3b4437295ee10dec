/** The in-memory log: a bounded list that drops its oldest entry. */
module LogRing {
  import opened Prelude
  import opened Filtering

  datatype LogEntry = LogEntry(timestamp: string, level: string, target: string, message: string)

  function LevelValue(level: string): nat
  {
    match level
    case "TRACE" => 0
    case "DEBUG" => 1
    case "INFO" => 2
    case "WARN" => 3
    case "ERROR" => 4
    case _ => 5
  }

  function AtLeast(minLevel: Option<string>): LogEntry -> bool
  {
    var minVal := match minLevel case Some(level) => LevelValue(level) case None => 0;
    (e: LogEntry) => LevelValue(e.level) >= minVal
  }

  /** Which entries a level lets through, by the names of the levels: every other name ranks above ERROR. */
  lemma {:induction false} LevelFilter(e: LogEntry)
    ensures AtLeast(None)(e) && AtLeast(Some("TRACE"))(e)
    ensures AtLeast(Some("DEBUG"))(e) <==> e.level != "TRACE"
    ensures AtLeast(Some("INFO"))(e) <==> e.level !in {"TRACE", "DEBUG"}
    ensures AtLeast(Some("WARN"))(e) <==> e.level !in {"TRACE", "DEBUG", "INFO"}
    ensures AtLeast(Some("ERROR"))(e) <==> e.level !in {"TRACE", "DEBUG", "INFO", "WARN"}
  {
  }

  lemma {:induction false} OtherLevelFilter(e: LogEntry, level: string)
    requires level !in {"TRACE", "DEBUG", "INFO", "WARN", "ERROR"}
    ensures AtLeast(Some(level))(e) <==> e.level !in {"TRACE", "DEBUG", "INFO", "WARN", "ERROR"}
  {
  }

  class LogRingBuffer {
    var entries: seq<LogEntry>
    const capacity: nat
    /** Every entry ever pushed, oldest first. */
    ghost var history: seq<LogEntry>

    /** The buffer is exactly the last `capacity` pushes, in order. */
    ghost predicate Valid()
      reads this
    {
      entries == LastN(history, capacity)
    }

    constructor (capacity: nat)
      ensures Valid() && this.capacity == capacity && history == []
    {
      this.capacity := capacity;
      entries := [];
      history := [];
    }

    /** Removing from an empty list is an error in the source, so a zero capacity cannot be pushed to. */
    method Push(entry: LogEntry)
      requires Valid() && capacity > 0
      modifies this
      ensures Valid() && history == old(history) + [entry]
    {
      if |entries| >= capacity {
        entries := entries[1..];
      }
      entries := entries + [entry];
      history := history + [entry];
    }

    /** Filter, then skip all but the last `limit`; read against the pushes, by the places LastKept describes. */
    method Recent(limit: nat, minLevel: Option<string>) returns (r: seq<LogEntry>)
      requires Valid()
      ensures r == LastN(Filter(LastN(history, capacity), AtLeast(minLevel)), limit)
    {
      var filtered := Filter(entries, AtLeast(minLevel));
      var start := if |filtered| <= limit then 0 else |filtered| - limit;
      r := filtered[start..];
    }
  }
}
