/**
 * The performance counters of an in-memory cache (`PerfMetrics`): entry count,
 * bytes used, reads and writes processed, and the last and total latency of hits
 * and of misses. Each method changes one counter (or one pair, for a latency) and
 * nothing else; a latency with a tag other than "hit" or "miss" throws a
 * `TypeError` before any field changes.
 */
module Metrics {
  /** Which backend the counters describe. */
  datatype CacheType = LRU | LFU | Redis

  /** A call that returns normally with a value, or throws a `TypeError`. */
  datatype Result<T> = Ok(value: T) | TypeError(message: string)

  /** The message of the error thrown for an unknown latency tag. */
  const UnknownTag: string := "Hit or miss not specified"

  /** The numeric fields of a `PerfMetrics` object, as a value. */
  datatype Counters = Counters(
    memoryUsed: int,
    numberOfEntries: int,
    readsProcessed: int,
    writesProcessed: int,
    currentHitLatency: int,
    currentMissLatency: int,
    missLatencyTotal: int,
    hitLatencyTotal: int)

  /** Every counter at 0, as the constructor leaves them. */
  const Zero: Counters := Counters(0, 0, 0, 0, 0, 0, 0, 0)

  /** The names of the counters. */
  datatype Field = MemoryUsed | NumberOfEntries | ReadsProcessed | WritesProcessed
                 | CurrentHitLatency | CurrentMissLatency | MissLatencyTotal | HitLatencyTotal

  function Get(c: Counters, f: Field): int
  {
    match f
    case MemoryUsed => c.memoryUsed
    case NumberOfEntries => c.numberOfEntries
    case ReadsProcessed => c.readsProcessed
    case WritesProcessed => c.writesProcessed
    case CurrentHitLatency => c.currentHitLatency
    case CurrentMissLatency => c.currentMissLatency
    case MissLatencyTotal => c.missLatencyTotal
    case HitLatencyTotal => c.hitLatencyTotal
  }

  /** One call on a `PerfMetrics` object. */
  datatype Op =
    | AddEntry
    | DeleteEntry
    | ReadProcessed
    | WriteProcessed
    | ClearEntries
    | IncreaseBytes(bytes: int)
    | DecreaseBytes(bytes: int)
    | UpdateLatency(latency: int, hitOrMiss: string)

  /** The tags `updateLatency` accepts. */
  predicate KnownTag(tag: string)
  {
    tag == "hit" || tag == "miss"
  }

  /** The fields a call may write. */
  function Touched(op: Op): set<Field>
  {
    match op
    case AddEntry => {NumberOfEntries}
    case DeleteEntry => {NumberOfEntries}
    case ReadProcessed => {ReadsProcessed}
    case WriteProcessed => {WritesProcessed}
    case ClearEntries => {NumberOfEntries}
    case IncreaseBytes(_) => {MemoryUsed}
    case DecreaseBytes(_) => {MemoryUsed}
    case UpdateLatency(_, tag) =>
      if tag == "hit" then {HitLatencyTotal, CurrentHitLatency}
      else if tag == "miss" then {MissLatencyTotal, CurrentMissLatency}
      else {}
  }

  /** The counters after one call, or the error it throws. */
  function Step(c: Counters, op: Op): (r: Result<Counters>)
    ensures r.TypeError? ==> r.message == UnknownTag
  {
    match op
    case AddEntry => Ok(c.(numberOfEntries := c.numberOfEntries + 1))
    case DeleteEntry => Ok(c.(numberOfEntries := c.numberOfEntries - 1))
    case ReadProcessed => Ok(c.(readsProcessed := c.readsProcessed + 1))
    case WriteProcessed => Ok(c.(writesProcessed := c.writesProcessed + 1))
    case ClearEntries => Ok(c.(numberOfEntries := 0))
    case IncreaseBytes(n) => Ok(c.(memoryUsed := c.memoryUsed + n))
    case DecreaseBytes(n) => Ok(c.(memoryUsed := c.memoryUsed - n))
    case UpdateLatency(l, tag) =>
      if tag == "hit" then
        Ok(c.(hitLatencyTotal := c.hitLatencyTotal + l, currentHitLatency := l))
      else if tag == "miss" then
        Ok(c.(missLatencyTotal := c.missLatencyTotal + l, currentMissLatency := l))
      else
        TypeError(UnknownTag)
  }

  /** Only a latency with an unknown tag throws; a call that returns writes no
      field outside `Touched(op)`. */
  lemma StepFrame(c: Counters, op: Op)
    ensures Step(c, op).TypeError? <==> op.UpdateLatency? && !KnownTag(op.hitOrMiss)
    ensures Step(c, op).Ok? ==> forall f :: f !in Touched(op) ==> Get(Step(c, op).value, f) == Get(c, f)
  {
  }

  /** `increaseBytes(n)` then `decreaseBytes(n)` restores every counter, and so does
      the opposite order. */
  lemma BytesRoundTrip(c: Counters, n: int)
    ensures Step(Step(c, IncreaseBytes(n)).value, DecreaseBytes(n)) == Ok(c)
    ensures Step(Step(c, DecreaseBytes(n)).value, IncreaseBytes(n)) == Ok(c)
  {
  }

  /** `addEntry` then `deleteEntry` restores every counter. */
  lemma EntriesRoundTrip(c: Counters)
    ensures Step(Step(c, AddEntry).value, DeleteEntry) == Ok(c)
    ensures Step(Step(c, DeleteEntry).value, AddEntry) == Ok(c)
  {
  }

  /** Clearing twice is clearing once. */
  lemma ClearIdempotent(c: Counters)
    ensures Step(c, ClearEntries).Ok? && Step(c, ClearEntries).value.numberOfEntries == 0
    ensures Step(Step(c, ClearEntries).value, ClearEntries) == Step(c, ClearEntries)
  {
  }

  /** The counters after a sequence of calls; the first throwing call ends the run
      with its error. */
  function Run(c: Counters, ops: seq<Op>): (r: Result<Counters>)
    ensures r.TypeError? ==> r.message == UnknownTag
    decreases |ops|
  {
    if ops == [] then Ok(c)
    else
      match Step(c, ops[0])
      case TypeError(m) => TypeError(m)
      case Ok(d) => Run(d, ops[1..])
  }

  /** The sum of the latencies recorded under `tag`. */
  function LatencySum(ops: seq<Op>, tag: string): int
    decreases |ops|
  {
    if ops == [] then 0
    else (if ops[0].UpdateLatency? && ops[0].hitOrMiss == tag then ops[0].latency else 0)
         + LatencySum(ops[1..], tag)
  }

  /** The net bytes added by the calls. */
  function ByteDelta(ops: seq<Op>): int
    decreases |ops|
  {
    if ops == [] then 0
    else (match ops[0]
          case IncreaseBytes(n) => n
          case DecreaseBytes(n) => -n
          case _ => 0)
         + ByteDelta(ops[1..])
  }

  /** How many calls in `ops` are `op`. */
  function Occurrences(ops: seq<Op>, op: Op): nat
    decreases |ops|
  {
    if ops == [] then 0 else (if ops[0] == op then 1 else 0) + Occurrences(ops[1..], op)
  }

  /** A run throws exactly when one of its latency tags is unknown. */
  lemma {:induction false} RunThrows(c: Counters, ops: seq<Op>)
    ensures Run(c, ops).TypeError? <==>
            exists i :: 0 <= i < |ops| && ops[i].UpdateLatency? && !KnownTag(ops[i].hitOrMiss)
    decreases |ops|
  {
    if ops != [] {
      StepFrame(c, ops[0]);
      if Step(c, ops[0]).Ok? {
        RunThrows(Step(c, ops[0]).value, ops[1..]);
        forall i | 1 <= i < |ops| ensures ops[i] == ops[1..][i - 1] { }
        if exists i :: 0 <= i < |ops| && ops[i].UpdateLatency? && !KnownTag(ops[i].hitOrMiss) {
          var i :| 0 <= i < |ops| && ops[i].UpdateLatency? && !KnownTag(ops[i].hitOrMiss);
          assert i > 0 && ops[1..][i - 1] == ops[i];
        }
      }
    }
  }

  /** A run that does not throw leaves the running latency totals, the byte count
      and the read and write counters at their start plus what the calls added. */
  lemma {:induction false} RunTotals(c: Counters, ops: seq<Op>)
    requires Run(c, ops).Ok?
    ensures Run(c, ops).value.hitLatencyTotal == c.hitLatencyTotal + LatencySum(ops, "hit")
    ensures Run(c, ops).value.missLatencyTotal == c.missLatencyTotal + LatencySum(ops, "miss")
    ensures Run(c, ops).value.memoryUsed == c.memoryUsed + ByteDelta(ops)
    ensures Run(c, ops).value.readsProcessed == c.readsProcessed + Occurrences(ops, ReadProcessed)
    ensures Run(c, ops).value.writesProcessed == c.writesProcessed + Occurrences(ops, WriteProcessed)
    decreases |ops|
  {
    if ops != [] {
      RunTotals(Step(c, ops[0]).value, ops[1..]);
    }
  }

  /** A run without `clearEntires` leaves the entry count at its start plus the
      additions minus the deletions. */
  lemma {:induction false} RunEntries(c: Counters, ops: seq<Op>)
    requires Run(c, ops).Ok? && ClearEntries !in ops
    ensures Run(c, ops).value.numberOfEntries
            == c.numberOfEntries + Occurrences(ops, AddEntry) - Occurrences(ops, DeleteEntry)
    decreases |ops|
  {
    if ops != [] {
      assert ClearEntries !in ops[1..] by {
        forall i | 0 <= i < |ops[1..]| ensures ops[1..][i] != ClearEntries {
          assert ops[1..][i] == ops[i + 1];
        }
      }
      RunEntries(Step(c, ops[0]).value, ops[1..]);
    }
  }

  /** The performance counters of one cache, updated in place by its methods. Each
      method's result is what the arrow function's body expression evaluates to. */
  class PerfMetrics {
    var cacheType: CacheType
    var memoryUsed: int
    var numberOfEntries: int
    var readsProcessed: int
    var writesProcessed: int
    var currentHitLatency: int
    var currentMissLatency: int
    var missLatencyTotal: int
    var hitLatencyTotal: int

    /** The numeric fields as a value. */
    ghost function Counts(): Counters
      reads this
    {
      Counters(memoryUsed, numberOfEntries, readsProcessed, writesProcessed,
               currentHitLatency, currentMissLatency, missLatencyTotal, hitLatencyTotal)
    }

    constructor ()
      ensures cacheType == LRU && Counts() == Zero
    {
      cacheType := LRU;
      memoryUsed := 0;
      numberOfEntries := 0;
      readsProcessed := 0;
      writesProcessed := 0;
      currentHitLatency := 0;
      currentMissLatency := 0;
      missLatencyTotal := 0;
      hitLatencyTotal := 0;
    }

    /** `addEntry`: one more entry; returns the count before. */
    method AddEntry() returns (r: int)
      modifies this
      ensures r == old(numberOfEntries) && numberOfEntries == r + 1
      ensures Ok(Counts()) == Step(old(Counts()), Op.AddEntry) && cacheType == old(cacheType)
    {
      r := numberOfEntries;
      numberOfEntries := numberOfEntries + 1;
    }

    /** `deleteEntry`: one entry fewer; returns the count before. */
    method DeleteEntry() returns (r: int)
      modifies this
      ensures r == old(numberOfEntries) && numberOfEntries == r - 1
      ensures Ok(Counts()) == Step(old(Counts()), Op.DeleteEntry) && cacheType == old(cacheType)
    {
      r := numberOfEntries;
      numberOfEntries := numberOfEntries - 1;
    }

    /** `readProcessed`: one more read; returns the count before. */
    method ReadProcessed() returns (r: int)
      modifies this
      ensures r == old(readsProcessed) && readsProcessed == r + 1
      ensures Ok(Counts()) == Step(old(Counts()), Op.ReadProcessed) && cacheType == old(cacheType)
    {
      r := readsProcessed;
      readsProcessed := readsProcessed + 1;
    }

    /** `writeProcessed`: one more write; returns the count before. */
    method WriteProcessed() returns (r: int)
      modifies this
      ensures r == old(writesProcessed) && writesProcessed == r + 1
      ensures Ok(Counts()) == Step(old(Counts()), Op.WriteProcessed) && cacheType == old(cacheType)
    {
      r := writesProcessed;
      writesProcessed := writesProcessed + 1;
    }

    /** `clearEntires`: the entry count drops to 0; returns 0. */
    method ClearEntries() returns (r: int)
      modifies this
      ensures r == 0 && numberOfEntries == 0
      ensures Ok(Counts()) == Step(old(Counts()), Op.ClearEntries) && cacheType == old(cacheType)
    {
      numberOfEntries := 0;
      r := 0;
    }

    /** `increaseBytes(bytes)`: returns the new byte count. */
    method IncreaseBytes(bytes: int) returns (r: int)
      modifies this
      ensures r == memoryUsed == old(memoryUsed) + bytes
      ensures Ok(Counts()) == Step(old(Counts()), Op.IncreaseBytes(bytes)) && cacheType == old(cacheType)
    {
      memoryUsed := memoryUsed + bytes;
      r := memoryUsed;
    }

    /** `decreaseBytes(bytes)`: returns the new byte count, which may be negative. */
    method DecreaseBytes(bytes: int) returns (r: int)
      modifies this
      ensures r == memoryUsed == old(memoryUsed) - bytes
      ensures Ok(Counts()) == Step(old(Counts()), Op.DecreaseBytes(bytes)) && cacheType == old(cacheType)
    {
      memoryUsed := memoryUsed - bytes;
      r := memoryUsed;
    }

    /** `updateLatency(latency, hitOrMiss)`: records a hit's or a miss's latency as
        the current one and adds it to that kind's total; any other tag throws and
        leaves every field as it was. */
    method UpdateLatency(latency: int, hitOrMiss: string) returns (r: Result<()>)
      modifies this
      ensures r.TypeError? <==> !KnownTag(hitOrMiss)
      ensures r.TypeError? ==> r.message == UnknownTag && Counts() == old(Counts())
      ensures hitOrMiss == "hit" ==>
                currentHitLatency == latency && hitLatencyTotal == old(hitLatencyTotal) + latency
      ensures hitOrMiss == "miss" ==>
                currentMissLatency == latency && missLatencyTotal == old(missLatencyTotal) + latency
      ensures r.Ok? ==> Ok(Counts()) == Step(old(Counts()), Op.UpdateLatency(latency, hitOrMiss))
      ensures cacheType == old(cacheType)
    {
      if hitOrMiss == "hit" {
        hitLatencyTotal := hitLatencyTotal + latency;
        currentHitLatency := latency;
        return Ok(());
      }
      if hitOrMiss == "miss" {
        missLatencyTotal := missLatencyTotal + latency;
        currentMissLatency := latency;
        return Ok(());
      }
      return TypeError(UnknownTag);
    }
  }

  /** `increaseBytes(n)` followed by `decreaseBytes(n)` on one object restores its
      counters. */
  method IncreaseThenDecrease(m: PerfMetrics, n: int)
    modifies m
    ensures m.Counts() == old(m.Counts()) && m.cacheType == old(m.cacheType)
  {
    ghost var c := m.Counts();
    var _ := m.IncreaseBytes(n);
    var _ := m.DecreaseBytes(n);
    BytesRoundTrip(c, n);
  }

  /** A second `clearEntires` changes nothing. */
  method ClearTwice(m: PerfMetrics)
    modifies m
    ensures m.numberOfEntries == 0
    ensures m.Counts() == old(m.Counts()).(numberOfEntries := 0)
    ensures m.cacheType == old(m.cacheType)
  {
    var _ := m.ClearEntries();
    ghost var c := m.Counts();
    var _ := m.ClearEntries();
    assert m.Counts() == c;
  }
}
