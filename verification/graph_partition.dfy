/**
 * The rolling 24-hour partition built by `fetchGraphData` (doc/script.js): 96 windows of
 * 15 minutes in slot order, the one holding `now` cut short at `now`, and the slots still
 * ahead today taken from yesterday instead. Instants are milliseconds.
 */
module GraphPartition {
  import opened Digits
  import opened Calendar
  import opened ClientFormat

  const IntervalMs: int := 15 * 60 * 1000
  const DayMs: int := 24 * 60 * 60 * 1000

  /** `Math.ceil(a / b)` for integers: the least q with a <= q * b. */
  function CeilDiv(a: int, b: int): (q: int)
    requires b > 0
    ensures (q - 1) * b < a <= q * b
  {
    var q := (a + b - 1) / b;
    assert q * b <= a + b - 1 < q * b + b;
    q
  }

  /** The number of slots, `Math.ceil(day / interval)`. */
  function SlotCount(): (n: int)
    ensures n == 96 && n * IntervalMs == DayMs
  {
    CeilDiv(DayMs, IntervalMs)
  }

  /** A time window `[start, end)` whose energy is requested. */
  datatype Window = Window(start: int, end: int)

  /** The `from` and `to` query arguments of one energy request. */
  datatype Query = Query(from: string, to: string)

  /** The window the loop builds for slot `i`. */
  function SlotWindow(i: int, now: int, midnight: int, midnightYesterday: int): (w: Window)
    ensures w.start == midnight + i * IntervalMs || w.start == midnightYesterday + i * IntervalMs
    ensures w.end == now || w.end == w.start + IntervalMs
  {
    var start := midnight + i * IntervalMs;
    var end := start + IntervalMs;
    if start <= now && end > now then Window(start, now)
    else if start > now then Window(midnightYesterday + i * IntervalMs, midnightYesterday + i * IntervalMs + IntervalMs)
    else Window(start, end)
  }

  /**
   * `startTimestamp` and `endTimestamp` of the loop: the `from` and `to` arguments of the
   * request for window `w`. `localTime` is the local calendar reading of an instant, as the
   * Date getters give it.
   */
  function QueryFor(w: Window, localTime: int -> DateTime): (q: Query)
    ensures FitsTwoDigits(localTime(w.start)) ==> |q.from| == 12 && AllDigits(q.from)
    ensures FitsTwoDigits(localTime(w.end)) ==> |q.to| == 12 && AllDigits(q.to)
  {
    Query(FormatApiTimestamp(localTime(w.start)), FormatApiTimestamp(localTime(w.end)))
  }

  /**
   * The loop of `fetchGraphData`: for each slot in turn, its window, pushed onto
   * `requestDetails` in slot order.
   */
  method PartitionDay(now: int, midnight: int, midnightYesterday: int) returns (requestDetails: seq<Window>)
    ensures |requestDetails| == SlotCount()
    ensures forall i :: 0 <= i < SlotCount() ==>
      requestDetails[i] == SlotWindow(i, now, midnight, midnightYesterday)
  {
    var interval := IntervalMs;
    var intervals := CeilDiv(DayMs, interval);
    requestDetails := [];
    for i := 0 to intervals
      invariant |requestDetails| == i
      invariant forall k :: 0 <= k < i ==> requestDetails[k] == SlotWindow(k, now, midnight, midnightYesterday)
    {
      var start := midnight + i * interval;
      var end := start + interval;
      if start <= now && end > now {
        end := now;
      } else if start > now {
        start := midnightYesterday + i * interval;
        end := start + interval;
      }
      requestDetails := requestDetails + [Window(start, end)];
    }
  }

  /** The slot holding `now` keeps its start and ends exactly at `now`. */
  lemma CurrentSlotClamped(i: int, now: int, midnight: int, midnightYesterday: int)
    requires midnight + i * IntervalMs <= now < midnight + (i + 1) * IntervalMs
    ensures SlotWindow(i, now, midnight, midnightYesterday) == Window(midnight + i * IntervalMs, now)
  {
  }

  /** A slot that has not begun today is the same slot of yesterday, at full length. */
  lemma FutureSlotFromYesterday(i: int, now: int, midnight: int, midnightYesterday: int)
    requires midnight + i * IntervalMs > now
    ensures SlotWindow(i, now, midnight, midnightYesterday)
      == Window(midnightYesterday + i * IntervalMs, midnightYesterday + (i + 1) * IntervalMs)
  {
  }

  /** A slot already over today keeps its full window. */
  lemma FinishedSlotUnchanged(i: int, now: int, midnight: int, midnightYesterday: int)
    requires midnight + (i + 1) * IntervalMs <= now
    ensures SlotWindow(i, now, midnight, midnightYesterday)
      == Window(midnight + i * IntervalMs, midnight + (i + 1) * IntervalMs)
  {
  }

  /**
   * Every window is ordered and at most one interval long; it is empty exactly when `now`
   * falls on the slot's boundary, the one case where the average power divides by zero.
   */
  lemma SlotWindowBounds(i: int, now: int, midnight: int, midnightYesterday: int)
    ensures var w := SlotWindow(i, now, midnight, midnightYesterday);
      && w.start <= w.end
      && w.end - w.start <= IntervalMs
      && (w.end == w.start <==> now == midnight + i * IntervalMs)
  {
  }

  /** `midnight` and `midnightYesterday` are a day apart and `now` falls in today. */
  predicate DayAnchors(now: int, midnight: int, midnightYesterday: int) {
    midnightYesterday + DayMs == midnight && midnight <= now < midnight + DayMs
  }

  /** Rolling view: every window lies in the 24 hours before `now`. */
  lemma WindowsInTrailingDay(i: int, now: int, midnight: int, midnightYesterday: int)
    requires 0 <= i < SlotCount()
    requires DayAnchors(now, midnight, midnightYesterday)
    ensures var w := SlotWindow(i, now, midnight, midnightYesterday);
      now - DayMs < w.start <= w.end <= now
  {
    var w := SlotWindow(i, now, midnight, midnightYesterday);
    if midnight + i * IntervalMs > now {
      assert w.start == midnight - DayMs + i * IntervalMs;
      assert w.end == midnight - DayMs + (i + 1) * IntervalMs;
    }
  }

  /** A window starts today exactly when its slot has begun by `now`. */
  lemma StartsTodayIffBegun(i: int, now: int, midnight: int, midnightYesterday: int)
    requires 0 <= i < SlotCount()
    requires DayAnchors(now, midnight, midnightYesterday)
    ensures SlotWindow(i, now, midnight, midnightYesterday).start >= midnight
      <==> midnight + i * IntervalMs <= now
  {
  }

  /** No two windows overlap: the partition counts no instant twice. */
  lemma WindowsDisjoint(i: int, j: int, now: int, midnight: int, midnightYesterday: int)
    requires 0 <= i < j < SlotCount()
    requires DayAnchors(now, midnight, midnightYesterday)
    ensures var wi, wj := SlotWindow(i, now, midnight, midnightYesterday), SlotWindow(j, now, midnight, midnightYesterday);
      wi.end <= wj.start || wj.end <= wi.start
  {
    var wi, wj := SlotWindow(i, now, midnight, midnightYesterday), SlotWindow(j, now, midnight, midnightYesterday);
    WindowsInTrailingDay(i, now, midnight, midnightYesterday);
    WindowsInTrailingDay(j, now, midnight, midnightYesterday);
    if midnight + j * IntervalMs <= now {
      assert wi.end <= midnight + (i + 1) * IntervalMs <= midnight + j * IntervalMs == wj.start;
    } else if midnight + i * IntervalMs <= now {
      assert wj.end == midnightYesterday + (j + 1) * IntervalMs <= midnight <= wi.start;
    } else {
      assert wi.end == midnightYesterday + (i + 1) * IntervalMs <= midnightYesterday + j * IntervalMs == wj.start;
    }
  }

  /** Instant `t` lies in window `w`, which covers `[w.start, w.end)`. */
  predicate InWindow(t: int, w: Window) {
    w.start <= t < w.end
  }

  /** The slot of an offset into the day: the one whose interval contains it. */
  lemma SlotOfOffset(x: int)
    requires 0 <= x < DayMs
    ensures var k := x / IntervalMs; 0 <= k < SlotCount() && k * IntervalMs <= x < (k + 1) * IntervalMs
  {
  }

  /** Scaling by the interval keeps the order of slot numbers. */
  lemma ScaleMonotone(a: int, b: int)
    requires a <= b
    ensures a * IntervalMs <= b * IntervalMs
  {
  }

  /** Slot starts in increasing order belong to increasing slot numbers. */
  lemma ScaleStrict(a: int, b: int)
    requires a * IntervalMs < b * IntervalMs
    ensures a < b
  {
  }

  /** Every instant of window `i` lies between the end of yesterday's slot `k` and `now`. */
  lemma WindowWithinSpan(i: int, t: int, now: int, midnight: int, midnightYesterday: int)
    requires 0 <= i < SlotCount()
    requires DayAnchors(now, midnight, midnightYesterday)
    requires InWindow(t, SlotWindow(i, now, midnight, midnightYesterday))
    ensures midnightYesterday + ((now - midnight) / IntervalMs + 1) * IntervalMs <= t < now
  {
    var k := (now - midnight) / IntervalMs;
    SlotOfOffset(now - midnight);
    var lo := midnightYesterday + (k + 1) * IntervalMs;
    assert lo <= midnight by { ScaleMonotone(k + 1, SlotCount()); }
    if midnight + (i + 1) * IntervalMs <= now {
      FinishedSlotUnchanged(i, now, midnight, midnightYesterday);
    } else if midnight + i * IntervalMs <= now {
      CurrentSlotClamped(i, now, midnight, midnightYesterday);
    } else {
      FutureSlotFromYesterday(i, now, midnight, midnightYesterday);
      assert k < i by { ScaleStrict(k, i); }
      assert lo <= midnightYesterday + i * IntervalMs by { ScaleMonotone(k + 1, i); }
      assert midnightYesterday + (i + 1) * IntervalMs <= midnight by { ScaleMonotone(i + 1, SlotCount()); }
    }
  }

  /** Every instant between the end of yesterday's slot `k` and `now` lies in a window. */
  lemma SpanWithinWindows(t: int, now: int, midnight: int, midnightYesterday: int) returns (i: int)
    requires DayAnchors(now, midnight, midnightYesterday)
    requires midnightYesterday + ((now - midnight) / IntervalMs + 1) * IntervalMs <= t < now
    ensures 0 <= i < SlotCount() && InWindow(t, SlotWindow(i, now, midnight, midnightYesterday))
  {
    var k := (now - midnight) / IntervalMs;
    SlotOfOffset(now - midnight);
    if t >= midnight {
      i := (t - midnight) / IntervalMs;
      SlotOfOffset(t - midnight);
      assert i <= k by { ScaleStrict(i, k + 1); }
      if i < k {
        assert midnight + (i + 1) * IntervalMs <= now by { ScaleMonotone(i + 1, k); }
        FinishedSlotUnchanged(i, now, midnight, midnightYesterday);
      } else {
        CurrentSlotClamped(i, now, midnight, midnightYesterday);
      }
    } else {
      i := (t - midnightYesterday) / IntervalMs;
      SlotOfOffset(t - midnightYesterday);
      assert k < i by { ScaleStrict(k, i); }
      assert midnight + i * IntervalMs > now by { ScaleMonotone(k + 1, i); }
      FutureSlotFromYesterday(i, now, midnight, midnightYesterday);
    }
  }

  /**
   * What the windows cover together. With `now` in slot `k` of today, an instant lies in
   * some window exactly when it falls between the end of yesterday's slot `k` and `now`.
   */
  lemma CoveredSpan(t: int, now: int, midnight: int, midnightYesterday: int)
    requires DayAnchors(now, midnight, midnightYesterday)
    ensures var k := (now - midnight) / IntervalMs;
      (exists i :: 0 <= i < SlotCount() && InWindow(t, SlotWindow(i, now, midnight, midnightYesterday)))
      <==> midnightYesterday + (k + 1) * IntervalMs <= t < now
  {
    var k := (now - midnight) / IntervalMs;
    if exists i :: 0 <= i < SlotCount() && InWindow(t, SlotWindow(i, now, midnight, midnightYesterday)) {
      var i :| 0 <= i < SlotCount() && InWindow(t, SlotWindow(i, now, midnight, midnightYesterday));
      WindowWithinSpan(i, t, now, midnight, midnightYesterday);
    }
    if midnightYesterday + (k + 1) * IntervalMs <= t < now {
      var i := SpanWithinWindows(t, now, midnight, midnightYesterday);
    }
  }

  /**
   * The windows fall short of the full trailing day: the instant exactly 24 hours before
   * `now` lies in none of them.
   */
  lemma TrailingDayStartUncovered(i: int, now: int, midnight: int, midnightYesterday: int)
    requires 0 <= i < SlotCount()
    requires DayAnchors(now, midnight, midnightYesterday)
    ensures !InWindow(now - DayMs, SlotWindow(i, now, midnight, midnightYesterday))
  {
    SlotOfOffset(now - midnight);
    if InWindow(now - DayMs, SlotWindow(i, now, midnight, midnightYesterday)) {
      WindowWithinSpan(i, now - DayMs, now, midnight, midnightYesterday);
    }
  }

  /**
   * `joules / (end - start) * 1000` with `joules = energy * 3600`: the average power in
   * watts over the window, for an energy in watt-hours.
   */
  function AveragePower(energy: real, start: int, end: int): (power: real)
    requires start < end
    ensures power * ((end - start) as real) == energy * 3600.0 * 1000.0
  {
    energy * 3600.0 / ((end - start) as real) * 1000.0
  }

  /** One entry of `graphData`: the window's start, its average power and its energy. */
  datatype Sample = Sample(time: int, power: real, energy: real)

  /** The entry pushed for window `w` once its energy is known. */
  function SampleFor(w: Window, energy: real): (s: Sample)
    requires w.start < w.end
    ensures s.time == w.start && s.energy == energy
    ensures s.power * ((w.end - w.start) as real) == energy * 3600.0 * 1000.0
  {
    Sample(w.start, AveragePower(energy, w.start, w.end), energy)
  }

  /** Over a whole 15-minute window the average power is four times the energy. */
  lemma FullSlotPower(energy: real, start: int)
    ensures AveragePower(energy, start, start + IntervalMs) == 4.0 * energy
  {
  }
}
