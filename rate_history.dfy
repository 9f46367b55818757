/**
 * The chart's bookkeeping: two system-wide byte counters are read once per
 * tick, the difference to the previous reading is appended to a bounded
 * series, and the oldest sample is evicted once the series is longer than the
 * window.
 */
module RateHistory {

  /** Number of samples the chart keeps per series. */
  const WINDOW_SIZE: nat := 30

  /** A system-wide counter snapshot: cumulative bytes sent and received. */
  datatype NetCounters = NetCounters(bytesSent: nat, bytesRecv: nat)

  /** The newest `n` elements of `s`, oldest first (all of `s` when it is shorter). */
  function LastN(s: seq<int>, n: nat): (r: seq<int>)
    ensures |r| <= n
  {
    if |s| <= n then s else s[|s| - n..]
  }

  /**
   * One chart step on a series: append the new sample, then drop element 0
   * when the series has grown beyond the window.
   */
  function Push(h: seq<int>, x: int): (r: seq<int>)
    ensures |h| <= WINDOW_SIZE ==> |r| <= WINDOW_SIZE
    ensures |r| == (if |h| < WINDOW_SIZE then |h| + 1 else |h|)
    ensures r[|r| - 1] == x
  {
    var appended := h + [x];
    if |appended| > WINDOW_SIZE then appended[1..] else appended
  }

  /**
   * First in, first out: the samples older than the new one are the newest
   * samples of `h`, in their order; on overflow it is element 0 that goes.
   */
  lemma PushKeepsOrder(h: seq<int>, x: int)
    ensures var r := Push(h, x); r[..|r| - 1] == h[|h| + 1 - |r|..]
    ensures |h| >= WINDOW_SIZE ==> Push(h, x) == h[1..] + [x]
  {
  }

  /** Sliding the window over the newest samples keeps exactly the newest samples. */
  lemma PushWindow(s: seq<int>, x: int)
    ensures Push(LastN(s, WINDOW_SIZE), x) == LastN(s + [x], WINDOW_SIZE)
  {
  }

  /** Successive differences of a series of counter readings. */
  function Diffs(xs: seq<int>): (d: seq<int>)
    ensures |d| == (if |xs| == 0 then 0 else |xs| - 1)
    decreases |xs|
  {
    if |xs| <= 1 then [] else [xs[1] - xs[0]] + Diffs(xs[1..])
  }

  /** Each difference is a reading minus the one before it. */
  lemma {:induction false} DiffsAt(xs: seq<int>, i: nat)
    requires i + 1 < |xs|
    ensures Diffs(xs)[i] == xs[i + 1] - xs[i]
    decreases |xs|
  {
    if i > 0 {
      DiffsAt(xs[1..], i - 1);
    }
  }

  /**
   * A new reading `y` adds exactly one difference `v`, taken against the latest reading.
   * `v` is a parameter rather than the expression it equals: a subtraction inside the
   * sequence display of the ensures makes the proof expensive for the solver.
   */
  lemma {:induction false} DiffsSnoc(xs: seq<int>, y: int, v: int)
    requires |xs| > 0 && v == y - xs[|xs| - 1]
    ensures Diffs(xs + [y]) == Diffs(xs) + [v]
    decreases |xs|
  {
    if |xs| > 1 {
      DiffsSnoc(xs[1..], y, v);
      assert (xs + [y])[1..] == xs[1..] + [y];
    }
  }

  /** `h` is the chart series drawn from the counter readings `readings`. */
  predicate IsWindowOf(h: seq<int>, readings: seq<int>) {
    |readings| > 0 && h == LastN(Diffs(readings), WINDOW_SIZE)
  }

  /**
   * One tick of a window over readings: pushing the new reading minus the
   * latest one gives the window over one more reading. As in `DiffsSnoc`, the
   * sample `v` is a parameter so that no subtraction sits inside a sequence display.
   */
  lemma WindowStep(h: seq<int>, readings: seq<int>, y: int, v: int)
    requires IsWindowOf(h, readings) && v == y - readings[|readings| - 1]
    ensures IsWindowOf(Push(h, v), readings + [y])
  {
    DiffsSnoc(readings, y, v);
    PushWindow(Diffs(readings), v);
  }

  /**
   * The chart's invariant: both series are the windows over the readings taken
   * so far, whose latest is the stored snapshot, so they have equal lengths.
   */
  predicate ChartInvariant(sent: seq<int>, recv: seq<int>, prev: NetCounters,
                           sentReadings: seq<int>, recvReadings: seq<int>)
  {
    && IsWindowOf(sent, sentReadings) && IsWindowOf(recv, recvReadings)
    && |recvReadings| == |sentReadings|
    && sentReadings[|sentReadings| - 1] == prev.bytesSent
    && recvReadings[|recvReadings| - 1] == prev.bytesRecv
  }

  /** The invariant bounds both series by the window and keeps them the same length. */
  lemma ChartInvariantBounds(sent: seq<int>, recv: seq<int>, prev: NetCounters,
                             sentReadings: seq<int>, recvReadings: seq<int>)
    requires ChartInvariant(sent, recv, prev, sentReadings, recvReadings)
    ensures |sent| == |recv| <= WINDOW_SIZE
  {
  }

  /** A tick with snapshot `cur` keeps the invariant. */
  lemma ChartTick(sent: seq<int>, recv: seq<int>, prev: NetCounters,
                  sentReadings: seq<int>, recvReadings: seq<int>, cur: NetCounters, ds: int, dr: int)
    requires ChartInvariant(sent, recv, prev, sentReadings, recvReadings)
    requires ds == cur.bytesSent - prev.bytesSent && dr == cur.bytesRecv - prev.bytesRecv
    ensures ChartInvariant(Push(sent, ds), Push(recv, dr), cur,
                           sentReadings + [cur.bytesSent], recvReadings + [cur.bytesRecv])
  {
    WindowStep(sent, sentReadings, cur.bytesSent, ds);
    WindowStep(recv, recvReadings, cur.bytesRecv, dr);
  }

  function Sum(s: seq<int>): int
    decreases |s|
  {
    if s == [] then 0 else s[0] + Sum(s[1..])
  }

  /** The differences telescope: together they add up to last reading minus first. */
  lemma {:induction false} SumOfDiffs(xs: seq<int>)
    requires |xs| > 0
    ensures Sum(Diffs(xs)) == xs[|xs| - 1] - xs[0]
    decreases |xs|
  {
    if |xs| > 1 {
      SumOfDiffs(xs[1..]);
      assert Diffs(xs)[1..] == Diffs(xs[1..]);
    }
  }

  /**
   * The samples a chart window shows add up to the counter's growth over the
   * readings they span: latest reading minus the reading just before the window.
   */
  lemma WindowTotal(h: seq<int>, readings: seq<int>)
    requires IsWindowOf(h, readings)
    ensures Sum(h) == readings[|readings| - 1] - readings[|readings| - 1 - |h|]
  {
    var d := Diffs(readings);
    var k := |readings| - 1 - |h|;
    var tail := readings[k..];
    assert |Diffs(tail)| == |h|;
    forall i | 0 <= i < |h|
      ensures Diffs(tail)[i] == h[i]
    {
      assert h[i] == d[|d| - |h| + i];
      DiffsAt(tail, i);
      DiffsAt(readings, |d| - |h| + i);
    }
    assert Diffs(tail) == h;
    SumOfDiffs(tail);
  }
}
