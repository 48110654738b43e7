/** The measurement loop of the benchmark: once per interval it collects
    the node's metrics, records how much contract data was uploaded since
    the previous round in a circular bandwidth log, averages the log over
    the measurement period, ends the test when the average falls below the
    minimum rate or enough file data is stored, sweeps finished uploads,
    and starts a batch of new uploads when there is room for them. */
module Benchmark {
  import opened Common
  import opened Metrics
  import FileUploads

  /** The settings the loop reads. Intervals and periods are in seconds. */
  datatype Config = Config(
    watchOnly: bool,
    dataPieces: U64,
    parityPieces: U64,
    fileSize: U64,
    maxConcurrentUploads: U64,
    minUploadRate: U64,
    interval: U64,
    period: U64,
    successSizeThreshold: U64,
    uploadsDir: string,
    stopSiaOnExit: bool)

  // ---------------------------------------------------------------------
  // Sleep alignment

  /** When the loop wakes up: one interval from `now`, rounded down to a
      whole multiple of the interval (times in nanoseconds since the zero
      time). A non-positive interval leaves the time unrounded. */
  function WakeTime(now: nat, d: nat): (r: nat) {
    var t := now + d;
    if d == 0 then t else t - t % d
  }

  /** The wake time is the first multiple of the interval strictly after
      `now`: a multiple, later than `now`, at most one interval away. */
  lemma WakeTimeAligned(now: nat, d: nat)
    requires d > 0
    ensures WakeTime(now, d) % d == 0
    ensures now < WakeTime(now, d) <= now + d
    ensures WakeTime(now, d) == (now / d + 1) * d
  {
    var q, r := now / d, now % d;
    assert now == q * d + r;
    var t := now + d;
    assert t == (q + 1) * d + r;
    DivModUnique(t, d, q + 1, r);
    assert WakeTime(now, d) == (q + 1) * d;
    MultipleMod(q + 1, d);
  }

  lemma DivModUnique(t: int, d: int, q: int, r: int)
    requires d > 0 && 0 <= r < d && t == q * d + r
    ensures t / d == q && t % d == r
  {
    var q', r' := t / d, t % d;
    assert t == q' * d + r';
    if q' > q {
      MulMono(q + 1, q', d);
    } else if q' < q {
      MulMono(q' + 1, q, d);
    }
  }

  lemma MulMono(a: int, b: int, d: int)
    requires a <= b && d >= 0
    ensures a * d <= b * d
  {
    assert b * d - a * d == (b - a) * d;
  }

  lemma MultipleMod(k: int, d: int)
    requires d > 0
    ensures (k * d) % d == 0
  {
    DivModUnique(k * d, d, k, 0);
  }

  // ---------------------------------------------------------------------
  // Exit verdict

  datatype Verdict = Continue | Fail | Succeed

  /** The exit test: failure when the average upload rate is below the
      minimum; otherwise success once a non-zero size threshold is reached
      by the finished file data; otherwise keep going. */
  function ExitVerdict(average: U64, fileTotalBytes: U64, conf: Config): (v: Verdict) {
    if average < conf.minUploadRate then Fail
    else if conf.successSizeThreshold > 0 && fileTotalBytes >= conf.successSizeThreshold then Succeed
    else Continue
  }

  /** The process exit status of both ways the test ends. */
  const ExitStatus: int := 0

  /** Each verdict in terms of the inputs: failure exactly when the rate is
      too low, whatever the size; success exactly when the rate is high
      enough and a non-zero threshold is met; a zero threshold never
      succeeds. */
  lemma VerdictCases(average: U64, fileTotalBytes: U64, conf: Config)
    ensures ExitVerdict(average, fileTotalBytes, conf) == Fail <==> average < conf.minUploadRate
    ensures ExitVerdict(average, fileTotalBytes, conf) == Succeed
            <==> average >= conf.minUploadRate && 0 < conf.successSizeThreshold <= fileTotalBytes
    ensures conf.successSizeThreshold == 0 ==> ExitVerdict(average, fileTotalBytes, conf) != Succeed
  {
  }

  /** Failure takes precedence: a slow rate fails the test even when the
      threshold is met, and more stored data never turns a failure into
      anything else. */
  lemma FailureFirst(average: U64, fileTotalBytes: U64, moreBytes: U64, conf: Config)
    requires fileTotalBytes <= moreBytes
    ensures ExitVerdict(average, fileTotalBytes, conf) == Fail ==> ExitVerdict(average, moreBytes, conf) == Fail
    ensures ExitVerdict(average, fileTotalBytes, conf) == Succeed ==> ExitVerdict(average, moreBytes, conf) == Succeed
  {
  }

  // ---------------------------------------------------------------------
  // Upload launch

  /** Whether a new batch of uploads starts: none is running, the loop is
      not only watching, there is a free upload slot, there are enough
      active contracts for the erasure coding, and the finished data plus
      the data still in flight stays under the size threshold (or there is
      none). The sums and the product are `uint64` and wrap around. */
  predicate ShouldLaunch(uploading: bool, conf: Config, m: Metrics) {
    && !uploading
    && !conf.watchOnly
    && m.fileUploadsInProgressCount < conf.maxConcurrentUploads
    && m.contractCountActive % TWO_64 >= AddU64(conf.dataPieces, conf.parityPieces)
    && (AddU64(m.fileTotalBytes, MulU64(m.fileUploadsInProgressCount, conf.fileSize)) < conf.successSizeThreshold
        || conf.successSizeThreshold == 0)
  }

  /** How many uploads a batch starts: one per free slot. */
  function WorkerCount(conf: Config, m: Metrics): (n: nat)
    requires m.fileUploadsInProgressCount < conf.maxConcurrentUploads
    ensures n >= 1 && m.fileUploadsInProgressCount + n == conf.maxConcurrentUploads
  {
    conf.maxConcurrentUploads - m.fileUploadsInProgressCount
  }

  /** When no sum or product overflows, the launch rule is the plain
      arithmetic condition. */
  lemma LaunchWithoutOverflow(uploading: bool, conf: Config, m: Metrics)
    requires m.contractCountActive < TWO_64
    requires conf.dataPieces + conf.parityPieces < TWO_64
    requires m.fileTotalBytes + m.fileUploadsInProgressCount * conf.fileSize < TWO_64
    ensures ShouldLaunch(uploading, conf, m)
            <==> && !uploading && !conf.watchOnly
                 && m.fileUploadsInProgressCount < conf.maxConcurrentUploads
                 && m.contractCountActive >= conf.dataPieces + conf.parityPieces
                 && (m.fileTotalBytes + m.fileUploadsInProgressCount * conf.fileSize < conf.successSizeThreshold
                     || conf.successSizeThreshold == 0)
  {
    var p := m.fileUploadsInProgressCount * conf.fileSize;
    assert 0 <= p < TWO_64;
    assert MulU64(m.fileUploadsInProgressCount, conf.fileSize) == p;
    ModSmall(m.contractCountActive);
  }

  /** The in-flight product wraps: with a file size of 2^63 bytes, two
      uploads in flight count as no data at all, and a batch may start
      although the data in flight is far beyond the threshold. */
  lemma LaunchWrapExample()
    ensures var conf := Config(false, 1, 1, TWO_64 / 2, 4, 0, 60, 3600, 10, "uploads", false);
      var m := Initial(Time(2020, 1, 1, 0, 0, 0)).(contractCountActive := 2, fileUploadsInProgressCount := 2);
      && ShouldLaunch(false, conf, m)
      && m.fileUploadsInProgressCount * conf.fileSize >= conf.successSizeThreshold
  {
    var s := TWO_64 / 2;
    assert 2 * s == 0 + 1 * TWO_64;
    ModShift(0, 1);
    assert MulU64(2, s) == 0;
  }

  // ---------------------------------------------------------------------
  // Bandwidth log

  /** The state of the bandwidth log: the slots, the cursor of the slot
      written last (-1 before the first round), whether the cursor has not
      yet wrapped around, and the contract size seen in the previous round. */
  datatype Log = Log(slots: seq<U64>, index: int, firstCycle: bool, lastSize: U64)

  /** What every reachable log satisfies: a cursor inside the slots (or -1
      before the first round, when nothing has been seen yet), and during
      the first cycle the first slot and every slot after the cursor still
      empty. */
  predicate Consistent(log: Log) {
    && |log.slots| >= 1
    && -1 <= log.index < |log.slots|
    && (log.index == -1 ==> log.firstCycle && log.lastSize == 0)
    && (log.firstCycle ==>
          forall j :: 0 <= j < |log.slots| && (j == 0 || log.index < j) ==> log.slots[j] == 0)
  }

  /** The log of a loop that has not run yet. */
  function Fresh(n: nat): (log: Log)
    requires n >= 1
    ensures Consistent(log)
  {
    Log(seq(n, _ => 0), -1, true, 0)
  }

  /** One round of bookkeeping for a contract size of `total`: advance the
      cursor (back to the first slot, ending the first cycle, when it runs
      off the end), store the upload rate since the previous round in that
      slot when there was a previous non-zero size not above this one, and
      remember this size. */
  function Advance(log: Log, total: U64, interval: U64): (r: Log)
    requires Consistent(log) && interval > 0
  {
    var next := log.index + 1;
    var index := if next == |log.slots| then 0 else next;
    var slots := if log.lastSize != 0 && log.lastSize <= total
                 then log.slots[index := (total - log.lastSize) / interval]
                 else log.slots;
    Log(slots, index, log.firstCycle && next != |log.slots|, total)
  }

  /** The cursor after a round: one further, modulo the number of slots;
      the first cycle ends exactly when it wraps, and never comes back. */
  lemma AdvanceCursor(log: Log, total: U64, interval: U64)
    requires Consistent(log) && interval > 0
    ensures var r := Advance(log, total, interval);
      && 0 <= r.index < |log.slots|
      && r.index == (log.index + 1) % |log.slots|
      && (r.firstCycle <==> log.firstCycle && log.index + 1 < |log.slots|)
      && r.lastSize == total
  {
  }

  /** Only the slot under the new cursor may change, to the rate since the
      previous round when that is known and not negative; every other slot
      keeps its value. */
  lemma AdvanceSlots(log: Log, total: U64, interval: U64)
    requires Consistent(log) && interval > 0
    ensures var r := Advance(log, total, interval);
      && |r.slots| == |log.slots|
      && (forall j :: 0 <= j < |log.slots| && j != r.index ==> r.slots[j] == log.slots[j])
      && (log.lastSize != 0 && log.lastSize <= total ==> r.slots[r.index] == (total - log.lastSize) / interval)
      && (log.lastSize == 0 || total < log.lastSize ==> r.slots == log.slots)
  {
  }

  lemma AdvanceConsistent(log: Log, total: U64, interval: U64)
    requires Consistent(log) && interval > 0
    ensures Consistent(Advance(log, total, interval))
  {
  }

  /** The plain sum of the slots. */
  function Sum(s: seq<U64>): (r: nat) {
    if s == [] then 0 else Sum(s[..|s| - 1]) + s[|s| - 1]
  }

  /** The average upload rate over the log, after a round: the `uint64` sum
      of the slots divided by the cursor while the first cycle lasts and the
      cursor is not on the first slot, and by the number of slots
      otherwise. */
  function Average(log: Log): (r: U64)
    requires Consistent(log) && log.index >= 0
  {
    var total := Sum(log.slots) % TWO_64;
    if log.firstCycle && log.index != 0 then total / log.index else total / |log.slots|
  }

  lemma {:induction false} SumAppend(a: seq<U64>, b: seq<U64>)
    ensures Sum(a + b) == Sum(a) + Sum(b)
    decreases |b|
  {
    if b == [] {
      assert a + b == a;
    } else {
      var ab := a + b;
      assert ab[..|ab| - 1] == a + b[..|b| - 1];
      SumAppend(a, b[..|b| - 1]);
    }
  }

  lemma {:induction false} SumZeros(s: seq<U64>)
    requires forall j :: 0 <= j < |s| ==> s[j] == 0
    ensures Sum(s) == 0
  {
    if s != [] {
      SumZeros(s[..|s| - 1]);
    }
  }

  lemma {:induction false} SumBound(s: seq<U64>, b: nat)
    requires forall j :: 0 <= j < |s| ==> s[j] <= b
    ensures Sum(s) <= |s| * b
  {
    if s != [] {
      SumBound(s[..|s| - 1], b);
      assert |s| * b == (|s| - 1) * b + b;
    }
  }

  lemma DivBound(x: nat, k: nat, b: nat)
    requires k > 0 && x <= k * b
    ensures x / k <= b
  {
    var q := x / k;
    assert x == q * k + x % k;
    if q > b {
      MulMono(b + 1, q, k);
      assert false;
    }
  }

  /** During the first cycle the average is the mean of the rates recorded
      so far: the sum of the slots from the second one up to the cursor,
      divided by how many they are. The first slot never holds a rate then,
      because the first round has no previous size to compare with. */
  lemma FirstCycleAverage(log: Log)
    requires Consistent(log) && log.firstCycle && log.index > 0
    ensures Average(log) == (Sum(log.slots[1..log.index + 1]) % TWO_64) / log.index
  {
    var s := log.slots;
    var k := log.index;
    assert s == s[..1] + s[1..k + 1] + s[k + 1..];
    SumAppend(s[..1] + s[1..k + 1], s[k + 1..]);
    SumAppend(s[..1], s[1..k + 1]);
    SumZeros(s[..1]);
    SumZeros(s[k + 1..]);
  }

  /** Unless the sum wraps around, the average never exceeds the largest
      rate in the log. */
  lemma AverageBound(log: Log, b: U64)
    requires Consistent(log) && log.index >= 0
    requires forall j :: 0 <= j < |log.slots| ==> log.slots[j] <= b
    requires Sum(log.slots) < TWO_64
    ensures Average(log) <= b
  {
    ModSmall(Sum(log.slots));
    if log.firstCycle && log.index != 0 {
      var part := log.slots[1..log.index + 1];
      FirstCycleAverage(log);
      assert forall j :: 0 <= j < |part| ==> part[j] == log.slots[j + 1];
      SumBound(part, b);
      var s := log.slots;
      assert s == s[..1] + part + s[log.index + 1..];
      SumAppend(s[..1] + part, s[log.index + 1..]);
      SumAppend(s[..1], part);
      ModSmall(Sum(part));
      DivBound(Sum(part), log.index, b);
    } else {
      SumBound(log.slots, b);
      DivBound(Sum(log.slots), |log.slots|, b);
    }
  }

  lemma {:induction false} SumUpdate(s: seq<U64>, k: nat, v: U64)
    requires k < |s|
    ensures Sum(s[k := v]) == Sum(s) - s[k] + v
  {
    var t := s[k := v];
    assert s == s[..k] + [s[k]] + s[k + 1..];
    assert t == s[..k] + [v] + s[k + 1..];
    SumAppend(s[..k] + [s[k]], s[k + 1..]);
    SumAppend(s[..k], [s[k]]);
    SumAppend(s[..k] + [v], s[k + 1..]);
    SumAppend(s[..k], [v]);
    assert [s[k]][..0] == [] && [v][..0] == [];
  }

  /** Two rounds with a one-minute interval and a two-hour period: the
      first round sees `size` bytes of contract data, the second 60,000,000
      bytes more, so the second slot records 1,000,000 bytes per second and
      that is also the average. */
  lemma TwoRoundExample(size: U64)
    requires 0 < size && size + 60_000_000 < TWO_64
    ensures var log := Advance(Advance(Fresh(120), size, 60), size + 60_000_000, 60);
      && log.index == 1 && log.firstCycle
      && log.slots[1] == 1_000_000
      && Average(log) == 1_000_000
  {
    var first := Advance(Fresh(120), size, 60);
    assert first.slots == Fresh(120).slots;
    AdvanceConsistent(Fresh(120), size, 60);
    var second := Advance(first, size + 60_000_000, 60);
    assert second.slots == first.slots[1 := 1_000_000];
    SumZeros(first.slots);
    SumUpdate(first.slots, 1, 1_000_000);
    ModSmall(1_000_000);
  }

  // ---------------------------------------------------------------------
  // The loop state

  /** What one round of the loop ends in. */
  datatype Outcome =
    | Skipped(error: string)
    | Exited(verdict: Verdict, stopNode: bool, status: int)
    | Continued(sweepError: Option<string>, workers: nat)

  lemma ModStep(t: nat, n: nat)
    requires n >= 1 && t >= 1
    ensures (if (t - 1) % n + 1 == n then 0 else (t - 1) % n + 1) == t % n
    ensures (t - 1) % n + 1 == n <==> t % n == 0
  {
    var q, r := (t - 1) / n, (t - 1) % n;
    assert t - 1 == q * n + r;
    if r + 1 == n {
      assert t == (q + 1) * n + 0;
      DivModUnique(t, n, q + 1, 0);
    } else {
      assert t == q * n + (r + 1);
      DivModUnique(t, n, q, r + 1);
    }
  }

  /** After `t` successful rounds the cursor is on slot `(t - 1) mod n` and
      the first cycle lasts while `t <= n`; one more round moves both on. */
  lemma CursorAdvances(log: Log, t: nat, total: U64, interval: U64)
    requires Consistent(log) && interval > 0
    requires log.index == (if t == 0 then -1 else (t - 1) % |log.slots|)
    requires log.firstCycle <==> t <= |log.slots|
    ensures var r := Advance(log, total, interval);
      && Consistent(r)
      && r.index == t % |log.slots|
      && (r.firstCycle <==> t + 1 <= |log.slots|)
  {
    var n := |log.slots|;
    AdvanceConsistent(log, total, interval);
    if t == 0 {
      SmallMod(0, n);
    } else {
      ModStep(t, n);
      if t < n {
        SmallMod(t - 1, n);
        SmallMod(t, n);
      } else if t == n {
        SmallMod(t - 1, n);
      }
    }
  }

  lemma SmallMod(t: nat, n: nat)
    requires 0 <= t < n
    ensures t % n == t
  {
    DivModUnique(t, n, 0, t);
  }

  /** The `uint64` sum of the slots, adding them one by one with
      wrap-around: the true sum modulo 2^64. */
  method WrappedSum(a: array<U64>) returns (sum: U64)
    ensures sum == Sum(a[..]) % TWO_64
  {
    sum := 0;
    for j := 0 to a.Length
      invariant sum == Sum(a[..j]) % TWO_64
    {
      assert a[..j + 1][..j] == a[..j];
      AddMod(Sum(a[..j]), a[j]);
      sum := AddU64(sum, a[j]);
    }
    assert a[..a.Length] == a[..];
  }

  /** The variables of the measurement loop, around the bandwidth log it
      writes in place. `ticks` counts the rounds whose collection
      succeeded. */
  class Tracker {
    const conf: Config
    const bwLog: array<U64>
    var bwLogIndex: int
    var bwFirstCycle: bool
    var lastSize: U64
    var bwAverage: U64
    var uploading: bool
    ghost var ticks: nat

    function State(): (r: Log)
      reads this, bwLog
    {
      Log(bwLog[..], bwLogIndex, bwFirstCycle, lastSize)
    }

    /** The log is consistent, has one slot per interval of the period, its
        cursor has advanced once per successful round, the first cycle
        lasts as many rounds as there are slots, and the average is that of
        the current log. */
    ghost predicate Valid()
      reads this, bwLog
    {
      LogValid() && bwAverage == (if ticks == 0 then 0 else Average(State()))
    }

    /** A log of one slot per interval in the period, all empty, with the
        cursor before the first slot. */
    constructor (conf: Config)
      requires conf.interval > 0 && conf.period / conf.interval >= 1
      ensures Valid() && fresh(bwLog)
      ensures this.conf == conf && State() == Fresh(conf.period / conf.interval)
      ensures ticks == 0 && bwAverage == 0 && !uploading
    {
      this.conf := conf;
      bwLog := new U64[conf.period / conf.interval](_ => 0);
      bwLogIndex := -1;
      bwFirstCycle := true;
      lastSize := 0;
      bwAverage := 0;
      uploading := false;
      ticks := 0;
    }

    /** The bookkeeping of a successful round for contract size `total`:
        the log advances as `Advance` says, in place, and the average is
        recomputed from it. */
    method Record(total: U64)
      requires Valid()
      modifies this, bwLog
      ensures Valid()
      ensures State() == Advance(old(State()), total, conf.interval)
      ensures bwAverage == Average(State())
      ensures ticks == old(ticks) + 1 && uploading == old(uploading)
    {
      Shift(total);
      Recompute();
    }

    /** The log is consistent, has one slot per interval of the period, its
        cursor has advanced once per successful round, and the first cycle
        lasts as many rounds as there are slots. */
    ghost predicate LogValid()
      reads this, bwLog
    {
      && Consistent(State())
      && conf.interval > 0
      && bwLog.Length == conf.period / conf.interval
      && bwLogIndex == (if ticks == 0 then -1 else (ticks - 1) % bwLog.Length)
      && (bwFirstCycle <==> ticks <= bwLog.Length)
    }

    /** Advances the cursor and writes the slot under it. */
    method Shift(total: U64)
      requires LogValid()
      modifies this, bwLog
      ensures LogValid() && ticks >= 1 && bwLogIndex >= 0
      ensures State() == Advance(old(State()), total, conf.interval)
      ensures ticks == old(ticks) + 1 && uploading == old(uploading) && bwAverage == old(bwAverage)
    {
      ghost var before := State();
      ghost var t := ticks;
      ghost var r := Advance(before, total, conf.interval);
      CursorAdvances(before, t, total, conf.interval);
      var next := bwLogIndex + 1;
      var wraps := next == bwLog.Length;
      if wraps {
        next := 0;
      }
      Store(next, total);
      assert bwLog[..] == r.slots;
      bwLogIndex := next;
      bwFirstCycle := bwFirstCycle && !wraps;
      lastSize := total;
      ticks := t + 1;
      assert State() == r;
      assert bwLogIndex == t % bwLog.Length == (ticks - 1) % bwLog.Length;
    }

    /** Writes the bandwidth of the last interval into slot `i` when the
        previous contract size is known and not above `total`. */
    method Store(i: int, total: U64)
      requires 0 <= i < bwLog.Length && conf.interval > 0
      modifies bwLog
      ensures bwLog[..] == if lastSize != 0 && lastSize <= total
                           then old(bwLog[..])[i := (total - lastSize) / conf.interval]
                           else old(bwLog[..])
    {
      if lastSize != 0 && lastSize <= total {
        bwLog[i] := (total - lastSize) / conf.interval;
      }
    }

    /** Recomputes the average from the slots, as `Average` says. */
    method Recompute()
      requires LogValid() && ticks >= 1 && bwLogIndex >= 0
      modifies this
      ensures State() == old(State()) && ticks == old(ticks) && uploading == old(uploading)
      ensures Valid() && bwAverage == Average(State())
    {
      ghost var s := State();
      var sum := WrappedSum(bwLog);
      assert sum == Sum(s.slots) % TWO_64;
      var divisor: U64;
      if bwFirstCycle && bwLogIndex != 0 {
        divisor := bwLogIndex;
      } else {
        divisor := bwLog.Length;
      }
      assert sum / divisor == Average(s);
      bwAverage := sum / divisor;
    }
    /** One round of the loop, given what the node answered to the metrics
        query and, for the sweep, the upload directory's listing and the
        node's and the file system's answers. A failed collection skips the
        round and changes nothing. Otherwise the round records the
        bandwidth, ends the test when the first cycle is over, the loop is
        not only watching and the verdict says so, and else sweeps finished
        uploads and starts a batch when the launch rule allows. */
    method Tick(collected: Result<Metrics>, local: set<string>, listing: Result<seq<string>>,
                status: string -> Result<FileUploads.FileStatus>, remove: string -> Option<string>)
      returns (outcome: Outcome, after: set<string>)
      requires Valid()
      requires listing.Ok? ==> FileUploads.Named(listing.value)
      modifies this, bwLog
      ensures Valid()
      ensures collected.Err? ==>
        && outcome == Skipped(collected.error) && after == local
        && unchanged(this) && unchanged(bwLog)
      ensures collected.Ok? ==>
        var m := collected.value;
        && !outcome.Skipped?
        && ticks == old(ticks) + 1
        && State() == Advance(old(State()), m.contractTotalSize, conf.interval)
        && bwAverage == Average(State())
        && (outcome.Exited? <==>
              !bwFirstCycle && !conf.watchOnly && ExitVerdict(bwAverage, m.fileTotalBytes, conf) != Continue)
      ensures outcome.Exited? ==>
        && outcome.verdict == ExitVerdict(bwAverage, collected.value.fileTotalBytes, conf)
        && outcome.stopNode == conf.stopSiaOnExit && outcome.status == ExitStatus
        && ticks > bwLog.Length
        && after == local && uploading == old(uploading)
      ensures outcome.Continued? ==>
        var m := collected.value;
        && (conf.watchOnly ==> after == local && outcome.sweepError.None?)
        && (!conf.watchOnly && listing.Err? ==> after == local && outcome.sweepError == Some(listing.error))
        && (!conf.watchOnly && listing.Ok? ==>
              (after, outcome.sweepError) == FileUploads.Sweep(local, conf.uploadsDir, listing.value, status, remove))
        && (ShouldLaunch(old(uploading), conf, m) ==> uploading && outcome.workers == WorkerCount(conf, m))
        && (!ShouldLaunch(old(uploading), conf, m) ==> uploading == old(uploading) && outcome.workers == 0)
    {
      if collected.Err? {
        return Skipped(collected.error), local;
      }
      var m := collected.value;
      Record(m.contractTotalSize);
      if !bwFirstCycle && !conf.watchOnly {
        var verdict := ExitVerdict(bwAverage, m.fileTotalBytes, conf);
        if verdict != Continue {
          return Exited(verdict, conf.stopSiaOnExit, ExitStatus), local;
        }
      }
      var sweepError: Option<string> := None;
      after := local;
      if !conf.watchOnly {
        after, sweepError := FileUploads.FinishUploads(local, conf.uploadsDir, listing, status, remove);
      }
      var workers := 0;
      if ShouldLaunch(uploading, conf, m) {
        uploading := true;
        workers := WorkerCount(conf, m);
      }
      outcome := Continued(sweepError, workers);
    }

    /** The end of a batch: every worker has finished, so a new batch may
        start. Nothing else changes. */
    method BatchDone()
      requires Valid()
      modifies this
      ensures Valid() && !uploading
      ensures State() == old(State()) && bwAverage == old(bwAverage) && ticks == old(ticks)
    {
      uploading := false;
    }
  }

  // ---------------------------------------------------------------------
  // A batch of uploads

  /** Upper bound (exclusive) of the random number naming a worker's
      directory. */
  const WorkerNameBound: nat := 999_999_999

  /** The directory a worker is told to write its file in: the upload
      directory, then the worker's random number with a `.dat` extension. */
  function WorkerDir(uploadsDir: string, n: nat): (r: string) {
    FileUploads.Join(uploadsDir, Decimal(n) + FileUploads.Extension)
  }

  /** Whether a worker's upload reports an error: creating the file,
      filling it or posting it failed. */
  predicate WorkerFails(env: FileUploads.UploadEnv) {
    env.createErr.Some? || env.fillErr.Some? || env.postErr.Some?
  }

  /** Whether a worker gets as far as posting its upload request. */
  predicate WorkerPosts(env: FileUploads.UploadEnv) {
    env.createErr.None? && env.fillErr.None?
  }

  /** How many workers report an error. */
  function Failures(envs: seq<FileUploads.UploadEnv>): (n: nat)
    ensures n <= |envs|
  {
    if envs == [] then 0
    else Failures(envs[..|envs| - 1]) + (if WorkerFails(envs[|envs| - 1]) then 1 else 0)
  }

  /** How many workers post an upload request. */
  function Posts(envs: seq<FileUploads.UploadEnv>): (n: nat)
    ensures n <= |envs|
  {
    if envs == [] then 0
    else Posts(envs[..|envs| - 1]) + (if WorkerPosts(envs[|envs| - 1]) then 1 else 0)
  }

  /** The request of the worker with directory number `n` and name bytes
      `random`: its local file, the remote path of its name and the
      configured erasure coding. */
  function WorkerRequest(conf: Config, n: nat, random: seq<Byte>): (r: FileUploads.UploadRequest)
    requires |random| == FileUploads.NameBytes
  {
    var name := FileUploads.LocalName(random);
    FileUploads.LocalNameShape(random, random);
    FileUploads.UploadRequest(WorkerPath(conf, n, random),
                              FileUploads.SiaPath(name), conf.dataPieces, conf.parityPieces)
  }

  /** The requests of a batch's workers, one per worker, whether or not
      the worker gets to post it. */
  function WorkerRequests(conf: Config, numbers: seq<nat>, randoms: seq<seq<Byte>>): (r: seq<FileUploads.UploadRequest>)
    requires |numbers| == |randoms|
    requires forall i :: 0 <= i < |randoms| ==> |randoms[i]| == FileUploads.NameBytes
  {
    seq(|numbers|, i requires 0 <= i < |numbers| => WorkerRequest(conf, numbers[i], randoms[i]))
  }

  /** The requests the first `n` workers post, in worker order, given each
      worker's request `reqs[i]`. */
  function Requests(envs: seq<FileUploads.UploadEnv>, reqs: seq<FileUploads.UploadRequest>, n: nat)
    : (r: seq<FileUploads.UploadRequest>)
    requires n <= |envs| && n <= |reqs|
  {
    if n == 0 then []
    else Requests(envs, reqs, n - 1) + (if WorkerPosts(envs[n - 1]) then [reqs[n - 1]] else [])
  }

  /** The first `n` workers post as many requests as get their file
      written. */
  lemma {:induction false} RequestsCount(envs: seq<FileUploads.UploadEnv>, reqs: seq<FileUploads.UploadRequest>,
                                         n: nat)
    requires n <= |envs| && n <= |reqs|
    ensures |Requests(envs, reqs, n)| == Posts(envs[..n])
  {
    if n > 0 {
      RequestsCount(envs, reqs, n - 1);
      assert envs[..n][..n - 1] == envs[..n - 1];
    }
  }

  /** A request is posted by the first `n` workers exactly when it is the
      request of one of them that gets its file written. */
  lemma {:induction false} RequestsMembers(envs: seq<FileUploads.UploadEnv>, reqs: seq<FileUploads.UploadRequest>,
                                           n: nat, r: FileUploads.UploadRequest)
    requires n <= |envs| && n <= |reqs|
    ensures r in Requests(envs, reqs, n) <==> exists i :: 0 <= i < n && WorkerPosts(envs[i]) && r == reqs[i]
  {
    if n > 0 {
      RequestsMembers(envs, reqs, n - 1, r);
      if exists i :: 0 <= i < n && WorkerPosts(envs[i]) && r == reqs[i] {
        var i :| 0 <= i < n && WorkerPosts(envs[i]) && r == reqs[i];
        if i < n - 1 {
          assert r in Requests(envs, reqs, n - 1);
        }
      }
    }
  }

  /** A batch posts one request for each worker that gets its file
      written, namely that worker's own request, and no other. */
  lemma BatchRequests(conf: Config, numbers: seq<nat>, randoms: seq<seq<Byte>>, envs: seq<FileUploads.UploadEnv>)
    requires |numbers| == |randoms| == |envs|
    requires forall i :: 0 <= i < |randoms| ==> |randoms[i]| == FileUploads.NameBytes
    ensures var requests := Requests(envs, WorkerRequests(conf, numbers, randoms), |envs|);
      && |requests| == Posts(envs)
      && (forall i :: 0 <= i < |envs| && WorkerPosts(envs[i]) ==>
            WorkerRequest(conf, numbers[i], randoms[i]) in requests)
      && (forall r :: r in requests ==>
            exists i :: 0 <= i < |envs| && WorkerPosts(envs[i]) && r == WorkerRequest(conf, numbers[i], randoms[i]))
  {
    var reqs := WorkerRequests(conf, numbers, randoms);
    RequestsCount(envs, reqs, |envs|);
    assert envs[..|envs|] == envs;
    forall r
      ensures r in Requests(envs, reqs, |envs|) <==>
              exists i :: 0 <= i < |envs| && WorkerPosts(envs[i]) && r == WorkerRequest(conf, numbers[i], randoms[i])
    {
      RequestsMembers(envs, reqs, |envs|, r);
    }
  }

  /** The path of the file a worker writes. */
  function WorkerPath(conf: Config, n: nat, random: seq<Byte>): (r: string)
    requires |random| == FileUploads.NameBytes
  {
    FileUploads.Join(WorkerDir(conf.uploadsDir, n), FileUploads.LocalName(random))
  }

  /** The paths of a batch's workers' files, one per worker. */
  function WorkerPaths(conf: Config, numbers: seq<nat>, randoms: seq<seq<Byte>>): (r: seq<string>)
    requires |numbers| == |randoms|
    requires forall i :: 0 <= i < |randoms| ==> |randoms[i]| == FileUploads.NameBytes
  {
    seq(|numbers|, i requires 0 <= i < |numbers| => WorkerPath(conf, numbers[i], randoms[i]))
  }

  /** The set of the given paths. */
  function Written(paths: seq<string>): (r: set<string>) {
    if paths == [] then {} else Written(paths[..|paths| - 1]) + {paths[|paths| - 1]}
  }

  lemma {:induction false} WrittenMembers(paths: seq<string>, p: string)
    ensures p in Written(paths) <==> exists k :: 0 <= k < |paths| && p == paths[k]
  {
    if paths != [] {
      var init := paths[..|paths| - 1];
      WrittenMembers(init, p);
      if exists k :: 0 <= k < |paths| && p == paths[k] {
        var k :| 0 <= k < |paths| && p == paths[k];
        if k < |paths| - 1 {
          assert p == init[k];
        }
      }
      if exists k :: 0 <= k < |init| && p == init[k] {
        var k :| 0 <= k < |init| && p == init[k];
        assert p == paths[k];
      }
    }
  }

  /** One more worker: a file set that changes at most at `path` keeps the
      batch's file invariants, with `path` added to the written ones. */
  lemma WrittenStep(local: set<string>, before: set<string>, after: set<string>,
                    written: seq<string>, path: string)
    requires before - Written(written) == local - Written(written)
    requires before <= local + Written(written)
    requires after - {path} == before - {path}
    ensures after - Written(written + [path]) == local - Written(written + [path])
    ensures after <= local + Written(written + [path])
  {
    assert (written + [path])[..|written|] == written;
    assert Written(written + [path]) == Written(written) + {path};
    forall p | p in after && p != path
      ensures p in before
    {
      assert p in after - {path};
    }
    forall p | p in before && p != path
      ensures p in after
    {
      assert p in before - {path};
    }
    forall p
      ensures p in after - Written(written + [path]) <==> p in local - Written(written + [path])
    {
      if p != path {
        assert p in before - Written(written) <==> p in local - Written(written);
      }
    }
  }

  /** The batch's files, stated per worker: every new file is some
      worker's, and a path no worker writes is present afterwards iff it
      was before. */
  lemma BatchFiles(local: set<string>, after: set<string>, conf: Config, numbers: seq<nat>,
                   randoms: seq<seq<Byte>>)
    requires |numbers| == |randoms|
    requires forall i :: 0 <= i < |randoms| ==> |randoms[i]| == FileUploads.NameBytes
    requires after - Written(WorkerPaths(conf, numbers, randoms)) == local - Written(WorkerPaths(conf, numbers, randoms))
    requires after <= local + Written(WorkerPaths(conf, numbers, randoms))
    ensures forall p :: p in after && p !in local ==>
              exists i :: 0 <= i < |numbers| && p == WorkerPath(conf, numbers[i], randoms[i])
    ensures forall p :: (forall i :: 0 <= i < |numbers| ==> p != WorkerPath(conf, numbers[i], randoms[i]))
              ==> (p in after <==> p in local)
  {
    var paths := WorkerPaths(conf, numbers, randoms);
    forall p | p in after && p !in local
      ensures exists i :: 0 <= i < |numbers| && p == WorkerPath(conf, numbers[i], randoms[i])
    {
      WrittenMembers(paths, p);
      var k :| 0 <= k < |paths| && p == paths[k];
      assert p == WorkerPath(conf, numbers[k], randoms[k]);
    }
    forall p | (forall i :: 0 <= i < |numbers| ==> p != WorkerPath(conf, numbers[i], randoms[i]))
      ensures p in after <==> p in local
    {
      forall k | 0 <= k < |paths|
        ensures p != paths[k]
      {
        assert paths[k] == WorkerPath(conf, numbers[k], randoms[k]);
      }
      WrittenMembers(paths, p);
      assert p in after - Written(paths) <==> p in local - Written(paths);
    }
  }

  /** One worker of a batch: it uploads a new file into the directory its
      number names. Only its own file's path can change; it reports an
      error exactly when creating, filling or posting fails, and posts its
      own request exactly when its file gets written. */
  method RunWorker(local: set<string>, conf: Config, n: nat, random: seq<Byte>, env: FileUploads.UploadEnv)
    returns (after: set<string>, err: Option<string>, request: Option<FileUploads.UploadRequest>)
    requires |random| == FileUploads.NameBytes
    ensures after - {WorkerPath(conf, n, random)} == local - {WorkerPath(conf, n, random)}
    ensures err.Some? <==> WorkerFails(env)
    ensures request.Some? <==> WorkerPosts(env)
    ensures request.Some? ==> request.value == WorkerRequest(conf, n, random)
    ensures env.createErr.Some? ==> after == local
    ensures env.createErr.None? ==> (WorkerPath(conf, n, random) in after <==> !WorkerFails(env))
  {
    after, err, request := FileUploads.UploadFile(local, env, WorkerDir(conf.uploadsDir, n),
                                                  conf.dataPieces, conf.parityPieces, conf.fileSize, random);
  }

  /** The uploads of one batch, one after the other: worker `i` writes the
      file named by `randoms[i]` in the directory of `numbers[i]`, meeting
      the system call results `envs[i]`. Every worker makes its attempt
      whatever the others met: each one that reports an error adds one
      error, each one that gets its file written posts its own request and
      no other requests are made, and every file the batch leaves behind
      was written by one of its workers. At a path that only one worker
      draws, a file remains iff that worker met no error, and a worker
      whose create fails leaves the path as it was. */
  method RunBatch(local: set<string>, conf: Config, workers: nat, numbers: seq<nat>,
                  randoms: seq<seq<Byte>>, envs: seq<FileUploads.UploadEnv>)
    returns (after: set<string>, requests: seq<FileUploads.UploadRequest>, errors: seq<string>)
    requires |numbers| == |randoms| == |envs| == workers
    requires forall i :: 0 <= i < workers ==> numbers[i] < WorkerNameBound && |randoms[i]| == FileUploads.NameBytes
    ensures requests == Requests(envs, WorkerRequests(conf, numbers, randoms), workers)
    ensures |errors| == Failures(envs) && |requests| == Posts(envs)
    ensures forall i :: 0 <= i < workers && WorkerPosts(envs[i]) ==>
              WorkerRequest(conf, numbers[i], randoms[i]) in requests
    ensures forall r :: r in requests ==>
              exists i :: 0 <= i < workers && WorkerPosts(envs[i]) && r == WorkerRequest(conf, numbers[i], randoms[i])
    ensures forall p :: p in after && p !in local ==>
              exists i :: 0 <= i < workers && p == WorkerPath(conf, numbers[i], randoms[i])
    ensures forall p :: (forall i :: 0 <= i < workers ==> p != WorkerPath(conf, numbers[i], randoms[i]))
              ==> (p in after <==> p in local)
    ensures forall i ::
              (&& 0 <= i < workers
               && forall j :: 0 <= j < workers && j != i ==>
                    WorkerPath(conf, numbers[j], randoms[j]) != WorkerPath(conf, numbers[i], randoms[i]))
              ==> if envs[i].createErr.Some?
              then (WorkerPath(conf, numbers[i], randoms[i]) in after <==> WorkerPath(conf, numbers[i], randoms[i]) in local)
              else (WorkerPath(conf, numbers[i], randoms[i]) in after <==> !WorkerFails(envs[i]))
  {
    ghost var reqs := WorkerRequests(conf, numbers, randoms);
    ghost var paths := WorkerPaths(conf, numbers, randoms);
    after := local;
    requests := [];
    errors := [];
    for i := 0 to workers
      invariant requests == Requests(envs, reqs, i)
      invariant |errors| == Failures(envs[..i])
      invariant after - Written(paths[..i]) == local - Written(paths[..i])
      invariant after <= local + Written(paths[..i])
      invariant forall k :: 0 <= k < i ==> FileOutcome(local, after, paths, envs, k)
    {
      ghost var path := WorkerPath(conf, numbers[i], randoms[i]);
      var before := after;
      var err, request;
      after, err, request := RunWorker(before, conf, numbers[i], randoms[i], envs[i]);
      assert paths[..i + 1][..i] == paths[..i] && paths[i] == path;
      FileOutcomeStep(local, before, after, paths, envs, i);
      WrittenStep(local, before, after, paths[..i], path);
      assert paths[..i] + [path] == paths[..i + 1];
      assert envs[..i + 1][..i] == envs[..i];
      assert reqs[i] == WorkerRequest(conf, numbers[i], randoms[i]);
      if request.Some? {
        requests := requests + [request.value];
      }
      if err.Some? {
        errors := errors + [err.value];
      }
    }
    assert envs[..workers] == envs;
    assert paths[..workers] == paths;
    BatchFiles(local, after, conf, numbers, randoms);
    BatchFileOutcomes(local, after, conf, numbers, randoms, envs);
    BatchRequests(conf, numbers, randoms, envs);
  }

  /** No other worker of the batch writes the path of worker `k`. */
  predicate Unique(paths: seq<string>, k: nat)
    requires k < |paths|
  {
    forall j :: 0 <= j < |paths| && j != k ==> paths[j] != paths[k]
  }

  /** What a batch leaves at worker `k`'s path when no other worker shares
      it: whatever was there before if the file could not be created, and
      otherwise a file iff the worker met no error (a failed fill or post
      removes it again). */
  predicate FileOutcome(local: set<string>, after: set<string>, paths: seq<string>,
                    envs: seq<FileUploads.UploadEnv>, k: nat)
    requires k < |paths| && k < |envs|
  {
    Unique(paths, k) ==>
      if envs[k].createErr.Some? then (paths[k] in after <==> paths[k] in local)
      else (paths[k] in after <==> !WorkerFails(envs[k]))
  }

  /** One more worker keeps the outcomes of the earlier ones and settles
      its own. */
  lemma FileOutcomeStep(local: set<string>, before: set<string>, after: set<string>,
                    paths: seq<string>, envs: seq<FileUploads.UploadEnv>, i: nat)
    requires i < |paths| == |envs|
    requires before - Written(paths[..i]) == local - Written(paths[..i])
    requires forall k :: 0 <= k < i ==> FileOutcome(local, before, paths, envs, k)
    requires after - {paths[i]} == before - {paths[i]}
    requires envs[i].createErr.Some? ==> after == before
    requires envs[i].createErr.None? ==> (paths[i] in after <==> !WorkerFails(envs[i]))
    ensures forall k :: 0 <= k <= i ==> FileOutcome(local, after, paths, envs, k)
  {
    forall k | 0 <= k <= i
      ensures FileOutcome(local, after, paths, envs, k)
    {
      if k < i && Unique(paths, k) {
        assert paths[i] != paths[k];
        assert paths[k] in after - {paths[i]} <==> paths[k] in before - {paths[i]};
        assert FileOutcome(local, before, paths, envs, k);
      } else if k == i && Unique(paths, i) && envs[i].createErr.Some? {
        WrittenMembers(paths[..i], paths[i]);
        forall j | 0 <= j < i
          ensures paths[i] != paths[..i][j]
        {
          assert paths[..i][j] == paths[j];
        }
        assert paths[i] !in Written(paths[..i]);
        assert paths[i] in before <==> paths[i] in before - Written(paths[..i]);
      }
    }
  }

  /** The outcomes of a whole batch, stated per worker. */
  lemma BatchFileOutcomes(local: set<string>, after: set<string>, conf: Config, numbers: seq<nat>,
                      randoms: seq<seq<Byte>>, envs: seq<FileUploads.UploadEnv>)
    requires |numbers| == |randoms| == |envs|
    requires forall i :: 0 <= i < |randoms| ==> |randoms[i]| == FileUploads.NameBytes
    requires forall k :: 0 <= k < |envs| ==> FileOutcome(local, after, WorkerPaths(conf, numbers, randoms), envs, k)
    ensures forall i ::
              (&& 0 <= i < |envs|
               && forall j :: 0 <= j < |envs| && j != i ==>
                    WorkerPath(conf, numbers[j], randoms[j]) != WorkerPath(conf, numbers[i], randoms[i]))
              ==> if envs[i].createErr.Some?
              then (WorkerPath(conf, numbers[i], randoms[i]) in after <==> WorkerPath(conf, numbers[i], randoms[i]) in local)
              else (WorkerPath(conf, numbers[i], randoms[i]) in after <==> !WorkerFails(envs[i]))
  {
    var paths := WorkerPaths(conf, numbers, randoms);
    forall i | && 0 <= i < |envs|
               && forall j :: 0 <= j < |envs| && j != i ==>
                    WorkerPath(conf, numbers[j], randoms[j]) != WorkerPath(conf, numbers[i], randoms[i])
      ensures if envs[i].createErr.Some?
              then (WorkerPath(conf, numbers[i], randoms[i]) in after <==> WorkerPath(conf, numbers[i], randoms[i]) in local)
              else (WorkerPath(conf, numbers[i], randoms[i]) in after <==> !WorkerFails(envs[i]))
    {
      assert Unique(paths, i);
      assert FileOutcome(local, after, paths, envs, i);
    }
  }

  /** A worker's file is not an entry of the upload directory itself: it
      lies one level further down, in the worker's `.dat` directory, so no
      name the sweep reads from the upload directory's listing leads to
      it. */
  lemma WorkerFileNested(uploadsDir: string, n: nat, random: seq<Byte>, listed: string)
    requires |random| == FileUploads.NameBytes
    requires '/' !in listed
    ensures FileUploads.Join(WorkerDir(uploadsDir, n), FileUploads.LocalName(random))
            != FileUploads.Join(uploadsDir, listed)
  {
    var tail := Decimal(n) + FileUploads.Extension + "/" + FileUploads.LocalName(random);
    var path := FileUploads.Join(WorkerDir(uploadsDir, n), FileUploads.LocalName(random));
    assert path == uploadsDir + "/" + tail;
    var k := |Decimal(n) + FileUploads.Extension|;
    assert tail[k] == '/';
    assert listed != tail;
    PrefixCancel(uploadsDir + "/", tail, listed);
  }

  lemma PrefixCancel(a: string, x: string, y: string)
    ensures a + x == a + y ==> x == y
  {
    if a + x == a + y {
      assert x == (a + x)[|a|..];
      assert y == (a + y)[|a|..];
    }
  }
}
