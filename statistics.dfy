/** Per-level timing and attempt counters (lp_stats.py). Times are clock ticks. */
module Statistics {
  import opened Wrappers

  /** `n` zeros; a negative length gives the empty list, as Python's `[0] * n` does. */
  function Zeros(n: int): (z: seq<int>)
    ensures |z| == Max(n, 0)
    ensures forall i | 0 <= i < |z| :: z[i] == 0
  {
    seq(Max(n, 0), i => 0)
  }

  /** The persisted form: each key may be missing from a loaded file. */
  datatype StatsDict = StatsDict(elapsed: Option<seq<int>>, attempts: Option<seq<int>>, total: Option<int>)

  /** The value of a stats tracker: its four fields. */
  datatype StatsRecord = StatsRecord(total: int, startTimes: seq<int>, elapsed: seq<int>, attempts: seq<int>)
  {
    /** Records the clock at the start of `level` and counts one more attempt at it. */
    function StartLevel(level: nat, now: int): (r: StatsRecord)
      requires level < |startTimes| && level < |attempts|
      ensures |r.startTimes| == |startTimes| && |r.attempts| == |attempts|
      ensures r.startTimes[level] == now && r.attempts[level] == attempts[level] + 1
      ensures forall i | 0 <= i < |startTimes| && i != level :: r.startTimes[i] == startTimes[i]
      ensures forall i | 0 <= i < |attempts| && i != level :: r.attempts[i] == attempts[i]
      ensures r.total == total && r.elapsed == elapsed
    {
      this.(startTimes := startTimes[level := now], attempts := attempts[level := attempts[level] + 1])
    }

    /** The time since `level` started. */
    function Duration(level: nat, now: int): (dt: int)
      requires level < |startTimes|
      ensures startTimes[level] + dt == now
    {
      now - startTimes[level]
    }

    /** Stores the time spent on `level`; nothing else changes. */
    function FinishLevel(level: nat, now: int): (r: StatsRecord)
      requires level < |startTimes| && level < |elapsed|
      ensures |r.elapsed| == |elapsed| && r.elapsed[level] == Duration(level, now)
      ensures forall i | 0 <= i < |elapsed| && i != level :: r.elapsed[i] == elapsed[i]
      ensures r.total == total && r.startTimes == startTimes && r.attempts == attempts
    {
      this.(elapsed := elapsed[level := Duration(level, now)])
    }

    /** The persisted part: start times are not saved. */
    function AsDict(): (d: StatsDict)
      ensures d.total.Some? && d.elapsed.Some? && d.attempts.Some?
      ensures d.total.value == total && d.elapsed.value == elapsed && d.attempts.value == attempts
    {
      StatsDict(Some(elapsed), Some(attempts), Some(total))
    }

    /** Loads the saved keys; an absent key keeps the current value and start times are kept. */
    function FromDict(d: StatsDict): (r: StatsRecord)
      ensures r.startTimes == startTimes
      ensures r.total == (if d.total.Some? then d.total.value else total)
      ensures r.elapsed == (if d.elapsed.Some? then d.elapsed.value else elapsed)
      ensures r.attempts == (if d.attempts.Some? then d.attempts.value else attempts)
    {
      StatsRecord(d.total.GetOr(total), startTimes, d.elapsed.GetOr(elapsed), d.attempts.GetOr(attempts))
    }

    /** Starting `level` once per clock reading in `nows`. */
    function StartRepeatedly(level: nat, nows: seq<int>): StatsRecord
      requires level < |startTimes| && level < |attempts|
      decreases |nows|
    {
      if nows == [] then this
      else StartLevel(level, nows[0]).StartRepeatedly(level, nows[1..])
    }
  }

  /** Loading a saved record into any tracker reproduces the saved total, times and attempts. */
  lemma LoadSaved(saved: StatsRecord, current: StatsRecord)
    ensures current.FromDict(saved.AsDict()) == saved.(startTimes := current.startTimes)
  {
  }

  /** Attempts accumulate: k starts of a level raise its count by k; the last start time wins. */
  lemma {:induction false} StartRepeatedlyCounts(r: StatsRecord, level: nat, nows: seq<int>)
    requires level < |r.startTimes| && level < |r.attempts|
    ensures r.StartRepeatedly(level, nows).attempts == r.attempts[level := r.attempts[level] + |nows|]
    ensures r.StartRepeatedly(level, nows).startTimes ==
      if nows == [] then r.startTimes else r.startTimes[level := nows[|nows| - 1]]
    ensures r.StartRepeatedly(level, nows).elapsed == r.elapsed
    decreases |nows|
  {
    if nows != [] {
      var next := r.StartLevel(level, nows[0]);
      StartRepeatedlyCounts(next, level, nows[1..]);
      if |nows| > 1 {
        assert nows[1..][|nows[1..]| - 1] == nows[|nows| - 1];
      }
    }
  }

  /** A tracker object; the game holds one and updates it in place. */
  class Stats {
    var total: int
    var startTimes: seq<int>
    var elapsed: seq<int>
    var attempts: seq<int>

    function Value(): StatsRecord
      reads this
    {
      StatsRecord(total, startTimes, elapsed, attempts)
    }

    /** One slot per level plus the unused slot 0, all zero. */
    constructor (totalLevels: int)
      ensures total == totalLevels
      ensures startTimes == Zeros(totalLevels + 1)
      ensures elapsed == Zeros(totalLevels + 1)
      ensures attempts == Zeros(totalLevels + 1)
    {
      total := totalLevels;
      startTimes := Zeros(totalLevels + 1);
      elapsed := Zeros(totalLevels + 1);
      attempts := Zeros(totalLevels + 1);
    }

    method StartLevel(level: nat, now: int)
      requires level < |startTimes| && level < |attempts|
      modifies this
      ensures Value() == old(Value()).StartLevel(level, now)
    {
      startTimes := startTimes[level := now];
      attempts := attempts[level := attempts[level] + 1];
    }

    method FinishLevel(level: nat, now: int) returns (dt: int)
      requires level < |startTimes| && level < |elapsed|
      modifies this
      ensures dt == old(Value()).Duration(level, now)
      ensures Value() == old(Value()).FinishLevel(level, now)
    {
      dt := now - startTimes[level];
      elapsed := elapsed[level := dt];
    }

    function AsDict(): (d: StatsDict)
      reads this
      ensures d == Value().AsDict()
    {
      StatsDict(Some(elapsed), Some(attempts), Some(total))
    }

    method FromDict(d: StatsDict)
      modifies this
      ensures Value() == old(Value()).FromDict(d)
    {
      total := d.total.GetOr(total);
      elapsed := d.elapsed.GetOr(elapsed);
      attempts := d.attempts.GetOr(attempts);
    }
  }
}
