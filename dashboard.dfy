/** The `statistics` of `src/pages/Dashboard.tsx`: task counts by status,
    rolling 24-hour counts over the store's timestamp logs, the
    `recent/total` display strings, and the recent-activity list. The clock
    is a parameter. */
module Dashboard {
  import opened Text
  import opened Types
  import opened TaskStore

  /** 24 hours in milliseconds. */
  const OneDayMs: int := 24 * 60 * 60 * 1000

  /** `tasks.filter(t => t.status === s).length`. */
  function CountStatus(tasks: seq<VideoTask>, s: Status): (n: nat)
    ensures n <= |tasks|
  {
    if tasks == [] then 0
    else (if tasks[0].status == s then 1 else 0) + CountStatus(tasks[1..], s)
  }

  /** The count is additive over the list and counts one task exactly when
      it has the status: together these fix it on every list. */
  lemma {:induction false} CountStatusAdditive(a: seq<VideoTask>, b: seq<VideoTask>, t: VideoTask, s: Status)
    ensures CountStatus(a + b, s) == CountStatus(a, s) + CountStatus(b, s)
    ensures CountStatus([t], s) == if t.status == s then 1 else 0
  {
    if a != [] {
      assert (a + b)[0] == a[0] && (a + b)[1..] == a[1..] + b;
      CountStatusAdditive(a[1..], b, t, s);
    } else {
      assert a + b == b;
    }
  }

  /** A status is counted exactly when some task has it. */
  lemma {:induction false} CountStatusPositive(tasks: seq<VideoTask>, s: Status)
    ensures CountStatus(tasks, s) > 0 <==> exists k :: 0 <= k < |tasks| && tasks[k].status == s
  {
    if tasks != [] {
      CountStatusPositive(tasks[1..], s);
      if tasks[0].status != s && CountStatus(tasks, s) == 0 {
        forall k | 0 <= k < |tasks| ensures tasks[k].status != s {
          if k > 0 {
            assert tasks[k] == tasks[1..][k - 1];
          }
        }
      }
      if CountStatus(tasks[1..], s) > 0 {
        var k :| 0 <= k < |tasks[1..]| && tasks[1..][k].status == s;
        assert tasks[k + 1].status == s;
      }
    }
  }

  /** Every task has exactly one of the four statuses: the completed,
      processing and failed counts and the pending tasks add up to the list. */
  lemma {:induction false} StatusCountsSum(tasks: seq<VideoTask>)
    ensures CountStatus(tasks, Completed) + CountStatus(tasks, Processing)
          + CountStatus(tasks, Failed) + CountStatus(tasks, Pending) == |tasks|
  {
    if tasks != [] {
      StatusCountsSum(tasks[1..]);
    }
  }

  /** The entries of a timestamp log that fall in the 24 hours before
      `now`. */
  function Recent24h(log: seq<int>, now: int): (n: nat)
    ensures n <= |log|
  {
    |KeepAfter(log, now - OneDayMs)|
  }

  /** The count is additive over the log and counts one entry exactly when
      it is later than `now - 24h`: together these fix it on every log. */
  lemma Recent24hAdditive(a: seq<int>, b: seq<int>, x: int, now: int)
    ensures Recent24h(a + b, now) == Recent24h(a, now) + Recent24h(b, now)
    ensures Recent24h([x], now) == if x > now - OneDayMs then 1 else 0
  {
    KeepAfterAppend(a, b, now - OneDayMs);
  }

  /** What pruning throws away is never missed: after an increment at `t`,
      the stored (30-day pruned) log gives the same 24-hour count at every
      later time as the whole history would. */
  lemma PruningNeverMissed(log: seq<int>, t: int, now: int)
    requires t <= now
    ensures Recent24h(RecordAt(log, t), now) == Recent24h(log + [t], now)
  {
    var cutoff := now - OneDayMs;
    KeepAfterAppend(KeepAfter(log, t - ThirtyDaysMs), [t], cutoff);
    KeepAfterTwice(log, t - ThirtyDaysMs, cutoff);
    KeepAfterAppend(log, [t], cutoff);
  }

  /** A series of increments, each pruning the log as it records. */
  function RecordAll(log: seq<int>, times: seq<int>): seq<int>
    decreases |times|
  {
    if times == [] then log else RecordAll(RecordAt(log, times[0]), times[1..])
  }

  /** The same holds for any series of increments none of which is later
      than `now`: pruning at each one never changes the 24-hour count. */
  lemma {:induction false} RecordAllNeverMissed(log: seq<int>, times: seq<int>, now: int)
    requires forall k :: 0 <= k < |times| ==> times[k] <= now
    ensures Recent24h(RecordAll(log, times), now) == Recent24h(log + times, now)
    decreases |times|
  {
    if times != [] {
      var t, rest := times[0], times[1..];
      RecordAllNeverMissed(RecordAt(log, t), rest, now);
      Recent24hAdditive(RecordAt(log, t), rest, t, now);
      Recent24hAdditive(log + [t], rest, t, now);
      PruningNeverMissed(log, t, now);
      assert log + times == (log + [t]) + rest;
    } else {
      assert log + times == log;
    }
  }

  /** `${recent}/${total}`. */
  function Display(recent: nat, total: nat): string
  {
    NatToDecimal(recent) + "/" + NatToDecimal(total)
  }

  /** The display reads back: split on `/` it has exactly two numerals, and
      they parse to the two counts. */
  lemma DisplayReadsBack(recent: nat, total: nat)
    ensures var parts := Split(Display(recent, total), '/');
      && |parts| == 2 && AllDigits(parts[0]) && AllDigits(parts[1])
      && ParseDecimal(parts[0]) == recent && ParseDecimal(parts[1]) == total
  {
    var a, b := NatToDecimal(recent), NatToDecimal(total);
    DigitsOnly(a, '/');
    DigitsOnly(b, '/');
    SplitPair(a, b, '/');
    ParseNatToDecimal(recent);
    ParseNatToDecimal(total);
  }

  /** The figures the dashboard shows. */
  datatype Statistics = Statistics(
    totalVideos: nat,
    recent24hVideos: nat,
    videoDisplay: string,
    apiCalls: nat,
    recent24hApiCalls: nat,
    apiDisplay: string,
    processing: nat,
    processingActive: bool,
    failed: nat)

  function ComputeStatistics(ledger: TaskLedger, now: int): Statistics
    reads ledger
  {
    var recentVideos := Recent24h(ledger.videoGeneratedTimestamps, now);
    var recentCalls := Recent24h(ledger.apiCallTimestamps, now);
    var processing := CountStatus(ledger.tasks, Processing);
    Statistics(
      ledger.totalVideosGenerated,
      recentVideos,
      Display(recentVideos, ledger.totalVideosGenerated),
      ledger.totalApiCalls,
      recentCalls,
      Display(recentCalls, ledger.totalApiCalls),
      processing,
      processing > 0,
      CountStatus(ledger.tasks, Failed))
  }

  /** On a valid ledger, each 24-hour figure is at most its lifetime total;
      the status reads "active" exactly when some task is processing. */
  lemma StatisticsBounds(ledger: TaskLedger, now: int)
    requires ledger.Valid()
    ensures var s := ComputeStatistics(ledger, now);
      && s.recent24hVideos <= s.totalVideos
      && s.recent24hApiCalls <= s.apiCalls
      && s.processing + s.failed <= |ledger.tasks|
      && (s.processingActive <==> exists k :: 0 <= k < |ledger.tasks| && ledger.tasks[k].status == Processing)
  {
    StatusCountsSum(ledger.tasks);
    CountStatusPositive(ledger.tasks, Processing);
  }

  /** `tasks.slice(0, 5)`: the five newest tasks, or all of them. */
  function RecentActivity(tasks: seq<VideoTask>): (r: seq<VideoTask>)
    ensures r <= tasks
    ensures |r| == if |tasks| < 5 then |tasks| else 5
  {
    if |tasks| < 5 then tasks else tasks[..5]
  }

  /** A task just added is the first one listed. */
  lemma NewTaskListedFirst(task: VideoTask, tasks: seq<VideoTask>)
    ensures RecentActivity([task] + tasks)[0] == task
  {
  }
}
