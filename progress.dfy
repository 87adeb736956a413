/**
 * The progress engine as values: the time-based percentage state machine
 * of `update_progress_time_based` and the fill and slash geometry of
 * `update_progress_bar`. Time is an integer count of milliseconds of the
 * monotonic clock; bar coordinates are reals.
 */
module Progress {
  import opened Options
  import Canvas

  /** The gap between two increments: three seconds. */
  const IncrementGapMs: int := 3000
  /** The terminal percentage. */
  const Full: int := 100

  /** `progress_percent`, `start_time` and `last_percent_update`. */
  datatype ProgressState = ProgressState(percent: int, startTime: Option<int>, lastUpdate: int)

  /** The state `run` leaves before the first tick: 0 %, clock started at `t0`. */
  function Started(t0: int): ProgressState
  {
    ProgressState(0, Some(t0), t0)
  }

  /** One tick of `update_progress_time_based` at clock reading `now`. */
  function Tick(s: ProgressState, now: int): (r: ProgressState)
    ensures r.startTime == Some(if s.startTime.Some? then s.startTime.value else now)
    ensures r.percent <= Full
    ensures s.percent <= Full ==>
      (r.percent == s.percent + 1 <==> s.startTime.Some? && now - s.lastUpdate >= IncrementGapMs && s.percent < Full)
    ensures s.percent <= Full ==> s.percent <= r.percent <= s.percent + 1
    ensures s.percent <= Full ==>
      r.lastUpdate == if s.startTime.None? || r.percent > s.percent then now else s.lastUpdate
  {
    var s1 := if s.startTime.None? then s.(startTime := Some(now), lastUpdate := now) else s;
    var s2 := if now - s1.lastUpdate >= IncrementGapMs && s1.percent < Full
              then s1.(percent := s1.percent + 1, lastUpdate := now)
              else s1;
    s2.(percent := if s2.percent < Full then s2.percent else Full)
  }

  /** Whether a tick that ends in state `s` schedules the next tick. */
  predicate Reschedules(s: ProgressState)
  {
    s.percent < Full
  }

  /** The state after ticks at each clock reading of `times`, in order. */
  function Run(s: ProgressState, times: seq<int>): ProgressState
    decreases |times|
  {
    if times == [] then s else Tick(Run(s, times[..|times| - 1]), times[|times| - 1])
  }

  /** Over any run the percentage never decreases and stays within `[0, 100]`. */
  lemma {:induction false} RunMonotone(s: ProgressState, times: seq<int>)
    requires 0 <= s.percent <= Full
    ensures s.percent <= Run(s, times).percent <= Full
    decreases |times|
  {
    if times != [] {
      RunMonotone(s, times[..|times| - 1]);
    }
  }

  /** 100 % is terminal: a tick changes nothing and does not reschedule. */
  lemma CompleteIsTerminal(s: ProgressState, now: int)
    requires s.startTime.Some? && s.percent == Full
    ensures Tick(s, now) == s && !Reschedules(Tick(s, now))
  {
  }

  /** Once complete, any further run of ticks leaves the state as it is. */
  lemma {:induction false} CompleteStaysComplete(s: ProgressState, times: seq<int>)
    requires s.startTime.Some? && s.percent == Full
    ensures Run(s, times) == s
    decreases |times|
  {
    if times != [] {
      CompleteStaysComplete(s, times[..|times| - 1]);
    }
  }

  predicate NonDecreasing(times: seq<int>)
  {
    forall a, b | 0 <= a < b < |times| :: times[a] <= times[b]
  }

  /**
   * The percentage never runs ahead of the clock: over a run of ticks
   * whose readings do not go backwards, every increment is paid for by
   * three seconds since the previous one.
   */
  lemma {:induction false} RateLimited(s: ProgressState, times: seq<int>)
    requires s.startTime.Some? && 0 <= s.percent <= Full
    requires NonDecreasing(times)
    requires forall k | 0 <= k < |times| :: s.lastUpdate <= times[k]
    ensures IncrementGapMs * (Run(s, times).percent - s.percent) <= Run(s, times).lastUpdate - s.lastUpdate
    ensures Run(s, times).startTime == s.startTime
    ensures times != [] ==> Run(s, times).lastUpdate <= times[|times| - 1]
    decreases |times|
  {
    if times != [] {
      var init := times[..|times| - 1];
      RateLimited(s, init);
      RunMonotone(s, init);
      if init != [] {
        assert init[|init| - 1] <= times[|times| - 1];
      }
    }
  }

  /** Ticks every `IntervalMs` after the start, as `progress_update_interval_ms` = 100 schedules them. */
  const IntervalMs: int := 100

  /** The clock readings of the first `m` ticks after a start at `t0`. */
  function Schedule(t0: int, m: nat): (ts: seq<int>)
    ensures |ts| == m
  {
    seq(m, j requires 0 <= j < m => t0 + IntervalMs * (j + 1))
  }

  /**
   * Ticking every 100 ms from a start at `t0`, the percentage after `m`
   * ticks is one per full three seconds elapsed, capped at 100.
   */
  lemma {:induction false} OnePercentPerThreeSeconds(t0: int, m: nat)
    ensures Run(Started(t0), Schedule(t0, m)).percent == if m / 30 < Full then m / 30 else Full
    ensures Run(Started(t0), Schedule(t0, m)).lastUpdate ==
      t0 + IncrementGapMs * (if m / 30 < Full then m / 30 else Full)
    ensures Run(Started(t0), Schedule(t0, m)).startTime == Some(t0)
    decreases m
  {
    if m > 0 {
      var ts := Schedule(t0, m);
      assert ts[..m - 1] == Schedule(t0, m - 1);
      OnePercentPerThreeSeconds(t0, m - 1);
    }
  }

  /**
   * Ticking every 100 ms from a start at 0 ms: 1 % at 3 s, 3 % at 9.5 s
   * and 100 % at 300 s, after which further ticks change nothing.
   */
  lemma Timeline(later: seq<int>)
    ensures Run(Started(0), Schedule(0, 30)).percent == 1
    ensures Run(Started(0), Schedule(0, 95)).percent == 3
    ensures Run(Started(0), Schedule(0, 3000)).percent == Full
    ensures Run(Run(Started(0), Schedule(0, 3000)), later) == Run(Started(0), Schedule(0, 3000))
  {
    OnePercentPerThreeSeconds(0, 30);
    OnePercentPerThreeSeconds(0, 95);
    OnePercentPerThreeSeconds(0, 3000);
    CompleteStaysComplete(Run(Started(0), Schedule(0, 3000)), later);
  }

  /** Bar geometry: `bar_left`, `bar_top`, `bar_right`, `bar_bottom` and the derived sizes. */
  datatype Bar = Bar(left: real, top: real, right: real, bottom: real, width: real, height: real)

  /** The bar `draw_progress_bar` records for the given inner edges; its sizes are at least 1. */
  function MakeBar(left: real, top: real, right: real, bottom: real): (b: Bar)
    ensures b.left == left && b.top == top && b.right == right && b.bottom == bottom
    ensures b.width >= 1.0 && b.height >= 1.0
    ensures b.width >= right - left && (right - left >= 1.0 ==> b.width == right - left)
    ensures b.height >= bottom - top && (bottom - top >= 1.0 ==> b.height == bottom - top)
  {
    Bar(left, top, right, bottom,
        if 1.0 >= right - left then 1.0 else right - left,
        if 1.0 >= bottom - top then 1.0 else bottom - top)
  }

  predicate ValidBar(b: Bar)
  {
    b.width >= 1.0 && b.height >= 1.0
  }

  /** Scaling a non-negative width by a fraction in `[0, 1]` stays within `[0, width]`. */
  lemma ScaleWithin(width: real, f: real)
    requires 0.0 <= width && 0.0 <= f <= 1.0
    ensures 0.0 <= width * f <= width
  {
    assert width - width * f == width * (1.0 - f);
    assert width * (1.0 - f) >= 0.0;
  }

  /** The filled width for a percentage. */
  function FillWidth(width: real, percent: int): (w: real)
    ensures 0.0 <= width && 0 <= percent <= Full ==> 0.0 <= w <= width
    ensures percent == 0 ==> w == 0.0
    ensures percent == Full ==> w == width
  {
    var f := percent as real / 100.0;
    if 0.0 <= width && 0 <= percent <= Full then ScaleWithin(width, f); width * f
    else width * f
  }

  /** The fill never shrinks as the percentage grows. */
  lemma FillMonotone(width: real, p: int, q: int)
    requires 0.0 <= width && p <= q
    ensures FillWidth(width, p) <= FillWidth(width, q)
  {
    var a, b := p as real / 100.0, q as real / 100.0;
    assert width * b - width * a == width * (b - a);
    assert width * (b - a) >= 0.0;
  }

  /** Below this fill width no slashes are drawn. */
  const MinSlashFill: real := 6.0
  const SlashSpacing: real := 14.0
  /** How far before the fill's right edge the last slash centre must stay. */
  const SlashMargin: real := 2.0

  /** The centre of the `k`-th slash: half a spacing in from the left edge, then one spacing apart. */
  function SlashCentre(left: real, k: int): real
  {
    left + SlashSpacing / 2.0 + SlashSpacing * k as real
  }

  /**
   * How many slashes `update_progress_bar` draws over a fill of `width`
   * from `left`: none for a thin fill, otherwise exactly the centres that
   * stay left of the fill's right edge less the margin.
   */
  function SlashCount(left: real, width: real): (n: nat)
    ensures width <= MinSlashFill ==> n == 0
    ensures width > MinSlashFill ==>
      && (forall k: int | 0 <= k < n :: SlashCentre(left, k) < left + width - SlashMargin)
      && SlashCentre(left, n) >= left + width - SlashMargin
  {
    var d := (width - SlashSpacing / 2.0 - SlashMargin) / SlashSpacing;
    if width <= MinSlashFill || d <= 0.0 then 0 else -((-d).Floor)
  }

  /** The line drawn for a slash centred at `x`: a diagonal from low left to high right. */
  function SlashLine(b: Bar, x: real): Canvas.Item
  {
    var length := if 8.0 >= b.height - 8.0 then 8.0 else b.height - 8.0;
    var width := if 4 >= (b.height / 4.0).Floor then 4 else (b.height / 4.0).Floor;
    Canvas.Line(x - length / 4.0, b.bottom - 3.0, x + length / 4.0, b.top + 3.0, width)
  }

  /** The fill rectangle for a percentage. */
  function FillRect(b: Bar, percent: int): Canvas.Item
  {
    Canvas.Rect(b.left, b.top, b.left + FillWidth(b.width, percent), b.bottom)
  }

  /** Every slash centre lies inside the filled part of the bar. */
  lemma SlashesInsideFill(b: Bar, percent: int, k: nat)
    requires ValidBar(b) && 0 <= percent <= Full
    requires k < SlashCount(b.left, FillWidth(b.width, percent))
    ensures b.left < SlashCentre(b.left, k) < b.left + FillWidth(b.width, percent)
  {
  }
}
