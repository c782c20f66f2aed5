/**
 * `renderGraph` (doc/script.js): one bar per sample, scaled against the largest power,
 * marked current or faded by the day it belongs to, and a tooltip placed next to the cursor
 * and pulled back on a right or bottom overflow. Its left edge stays on screen, but a
 * tooltip wider than the window less 10 pixels still sticks out on the right, and nothing
 * stops it from going above the top.
 */
module GraphRender {
  import opened Calendar
  import opened ClientFormat
  import opened GraphPartition

  /** A rendered bar: its height, width and left offset in pixels, and its style class. */
  datatype Bar = Bar(height: real, width: real, left: real, current: bool)

  /** `data.map((entry) => entry.power)`. */
  function Powers(data: seq<Sample>): (p: seq<real>)
    ensures |p| == |data|
    ensures forall i :: 0 <= i < |data| ==> p[i] == data[i].power
  {
    seq(|data|, i requires 0 <= i < |data| => data[i].power)
  }

  /** `Math.max(...powers, 0.1)`: the largest power, but never below 0.1. */
  function MaxPower(powers: seq<real>): (m: real)
    ensures 0.1 <= m
    ensures forall i :: 0 <= i < |powers| ==> powers[i] <= m
    ensures m == 0.1 || exists i :: 0 <= i < |powers| && powers[i] == m
  {
    if |powers| == 0 then 0.1
    else
      var rest, last := MaxPower(powers[..|powers| - 1]), powers[|powers| - 1];
      if last > rest then last else rest
  }

  /** Lines 107-108: the power's share of the maximum, times the graph height, but at least 2. */
  function ScaledHeight(power: real, maxPower: real, maxHeight: real): (h: real)
    requires maxPower > 0.0
    ensures h >= 2.0
  {
    var scaledHeight := power / maxPower * maxHeight;
    if scaledHeight > 2.0 then scaledHeight else 2.0
  }

  /** Above the 2-pixel floor the height is proportional to the power. */
  lemma ScaledHeightProportional(power: real, maxPower: real, maxHeight: real)
    requires maxPower > 0.0
    requires power * maxHeight >= 2.0 * maxPower
    ensures ScaledHeight(power, maxPower, maxHeight) * maxPower == power * maxHeight
  {
    var scaledHeight := power / maxPower * maxHeight;
    assert scaledHeight * maxPower == power * maxHeight;
    assert scaledHeight >= 2.0 by {
      assert scaledHeight * maxPower >= 2.0 * maxPower;
    }
  }

  /** A bar no more powerful than the maximum fits in a graph at least 2 pixels high. */
  lemma ScaledHeightWithinGraph(power: real, maxPower: real, maxHeight: real)
    requires 0.0 <= power <= maxPower && maxPower > 0.0
    requires maxHeight >= 2.0
    ensures ScaledHeight(power, maxPower, maxHeight) <= maxHeight
  {
    var ratio := power / maxPower;
    assert ratio <= 1.0 by {
      assert ratio * maxPower == power;
    }
    assert ratio * maxHeight <= maxHeight;
  }

  /** More power never gives a lower bar. */
  lemma ScaledHeightMonotone(p1: real, p2: real, maxPower: real, maxHeight: real)
    requires maxPower > 0.0 && maxHeight >= 0.0
    requires p1 <= p2
    ensures ScaledHeight(p1, maxPower, maxHeight) <= ScaledHeight(p2, maxPower, maxHeight)
  {
    var r1, r2 := p1 / maxPower, p2 / maxPower;
    assert r1 <= r2 by {
      assert (r2 - r1) * maxPower == p2 - p1;
    }
    assert (r2 - r1) * maxHeight >= 0.0;
  }

  /** With every power zero the maximum falls back to 0.1 and every bar is 2 pixels high. */
  lemma AllZeroBarsAtMinimum(data: seq<Sample>, maxHeight: real)
    requires forall i :: 0 <= i < |data| ==> data[i].power == 0.0
    ensures MaxPower(Powers(data)) == 0.1
    ensures forall i :: 0 <= i < |data| ==> ScaledHeight(data[i].power, MaxPower(Powers(data)), maxHeight) == 2.0
  {
  }

  /** A power equal to the maximum is scaled to the full height. */
  lemma ScaledHeightAtMaximum(maxPower: real, maxHeight: real)
    requires maxPower > 0.0 && maxHeight >= 2.0
    ensures ScaledHeight(maxPower, maxPower, maxHeight) == maxHeight
  {
    assert maxPower / maxPower == 1.0;
  }

  /** The most powerful sample, when it exceeds the 0.1 floor, fills the graph's height. */
  lemma TallestBarFillsGraph(data: seq<Sample>, k: int, maxHeight: real)
    requires 0 <= k < |data|
    requires data[k].power == MaxPower(Powers(data)) && maxHeight >= 2.0
    ensures ScaledHeight(data[k].power, MaxPower(Powers(data)), maxHeight) == maxHeight
  {
    ScaledHeightAtMaximum(MaxPower(Powers(data)), maxHeight);
  }

  /**
   * The bar the `forEach` callback draws for `entry` at position `index`: its scaled
   * height, the shared width, `index * barWidth` from the left, and `current` when the
   * sample starts at or after midnight.
   */
  function BarFor(entry: Sample, index: int, barWidth: real, maxPower: real,
                  maxHeight: real, midnight: int): (b: Bar)
    requires maxPower > 0.0
    ensures b.height >= 2.0 && b.width == barWidth
  {
    Bar(ScaledHeight(entry.power, maxPower, maxHeight), barWidth, (index as real) * barWidth,
        entry.time >= midnight)
  }

  /** Consecutive bars touch: each starts where the one before it ends, the first at 0. */
  lemma BarsSideBySide(e1: Sample, e2: Sample, index: nat, barWidth: real, maxPower: real,
                       maxHeight: real, midnight: int)
    requires maxPower > 0.0
    ensures BarFor(e1, 0, barWidth, maxPower, maxHeight, midnight).left == 0.0
    ensures var b1, b2 := BarFor(e1, index, barWidth, maxPower, maxHeight, midnight),
                          BarFor(e2, index + 1, barWidth, maxPower, maxHeight, midnight);
      b2.left == b1.left + b1.width
  {
    assert ((index + 1) as real) * barWidth == (index as real) * barWidth + barWidth;
  }

  /** The bars of `n` samples, side by side, exactly span a container of positive width. */
  lemma BarsSpanGraph(e: Sample, n: nat, clientWidth: real, maxPower: real, maxHeight: real, midnight: int)
    requires n > 0 && maxPower > 0.0
    ensures var b := BarFor(e, n - 1, clientWidth / (n as real), maxPower, maxHeight, midnight);
      b.left + b.width == clientWidth
  {
    var w := clientWidth / (n as real);
    assert w * (n as real) == clientWidth;
    assert ((n - 1) as real) * w + w == (n as real) * w;
  }

  /** A bar is styled current exactly when its sample starts today, else faded. */
  lemma BarCurrentIffToday(entry: Sample, index: int, barWidth: real, maxPower: real,
                           maxHeight: real, midnight: int)
    requires maxPower > 0.0
    ensures BarFor(entry, index, barWidth, maxPower, maxHeight, midnight).current
      <==> entry.time >= midnight
  {
  }

  /** The graph container: its size and the bars it holds. */
  class Graph {
    var clientWidth: real
    var clientHeight: real
    var bars: seq<Bar>

    constructor (width: real, height: real)
      ensures clientWidth == width && clientHeight == height && bars == []
    {
      clientWidth, clientHeight, bars := width, height, [];
    }

    /** The width each of `n` bars gets: the container width shared equally. */
    function BarWidth(n: int): (w: real)
      reads this
      ensures n > 0 ==> w * (n as real) == clientWidth
    {
      if n <= 0 then 0.0 else clientWidth / (n as real)
    }

    /**
     * Clears the container and appends one bar per sample, in order. `midnight` is the
     * start of the current day, which the source reads from the clock.
     */
    method Render(data: seq<Sample>, midnight: int)
      modifies this`bars
      ensures |bars| == |data|
      ensures forall i :: 0 <= i < |data| ==>
        bars[i] == BarFor(data[i], i, BarWidth(|data|), MaxPower(Powers(data)), clientHeight, midnight)
    {
      bars := [];
      var barWidth := BarWidth(|data|);
      var maxHeight := clientHeight;
      var maxPower := MaxPower(Powers(data));
      for index := 0 to |data|
        invariant |bars| == index
        invariant forall i :: 0 <= i < index ==>
          bars[i] == BarFor(data[i], i, barWidth, maxPower, maxHeight, midnight)
      {
        var entry := data[index];
        var scaledHeight := ScaledHeight(entry.power, maxPower, maxHeight);
        var current := entry.time >= midnight;
        bars := bars + [Bar(scaledHeight, barWidth, (index as real) * barWidth, current)];
      }
    }
  }

  /**
   * Lines 130-140: the tooltip's offsets. It starts 10 pixels right of and 30 above the
   * cursor; a right overflow moves it to 10 pixels from the right edge, a bottom overflow
   * to 10 from the bottom, and a negative left offset becomes 10.
   */
  method TooltipPosition(pageX: int, pageY: int, tooltipWidth: int, tooltipHeight: int,
                         windowWidth: int, windowHeight: int)
    returns (left: int, top: int)
    ensures 0 <= left
    ensures pageX + 10 >= 0 && pageX + 10 + tooltipWidth <= windowWidth ==> left == pageX + 10
    ensures pageX + 10 + tooltipWidth > windowWidth && windowWidth - tooltipWidth - 10 >= 0 ==>
      left == windowWidth - tooltipWidth - 10
    ensures pageX + 10 + tooltipWidth > windowWidth && windowWidth - tooltipWidth - 10 < 0 ==> left == 10
    ensures pageX + 10 < 0 && pageX + 10 + tooltipWidth <= windowWidth ==> left == 10
    ensures left == pageX + 10 || left == windowWidth - tooltipWidth - 10 || left == 10
    ensures tooltipWidth + 10 <= windowWidth ==> left + tooltipWidth <= windowWidth
    ensures top + tooltipHeight <= windowHeight
    ensures top <= pageY - 30
    ensures pageY - 30 + tooltipHeight <= windowHeight ==> top == pageY - 30
    ensures pageY - 30 + tooltipHeight > windowHeight ==> top == windowHeight - tooltipHeight - 10
  {
    left := pageX + 10;
    top := pageY - 30;
    if left + tooltipWidth > windowWidth {
      left := windowWidth - tooltipWidth - 10;
    }
    if top + tooltipHeight > windowHeight {
      top := windowHeight - tooltipHeight - 10;
    }
    if left < 0 {
      left := 10;
    }
  }

  /**
   * The shared tooltip element, looked up once per rendering. Its starting state (no
   * heading, transparent) is what the page's markup is taken to provide; the script itself
   * only writes the fields in the handlers below.
   */
  class Tooltip {
    var heading: string
    var opacity: int
    var left: int
    var top: int

    constructor ()
      ensures heading == "" && opacity == 0
    {
      heading, opacity, left, top := "", 0, 0, 0;
    }

    /**
     * The mouse enters the bar of `entry`: show the slot's time range and place the tooltip.
     * The measured tooltip size, the window size and the cursor position are inputs.
     */
    method OnMouseEnter(entry: Sample, localTime: int -> DateTime, pageX: int, pageY: int,
                        offsetWidth: int, offsetHeight: int, innerWidth: int, innerHeight: int)
      modifies this
      ensures heading == FormatTooltipTime(localTime(entry.time)) + " - "
                         + FormatTooltipTime(localTime(entry.time + IntervalMs))
      ensures opacity == 1
      ensures 0 <= left
      ensures pageX + 10 >= 0 && pageX + 10 + offsetWidth <= innerWidth ==> left == pageX + 10
      ensures pageX + 10 + offsetWidth > innerWidth && innerWidth - offsetWidth - 10 >= 0 ==>
        left == innerWidth - offsetWidth - 10
      ensures pageX + 10 + offsetWidth > innerWidth && innerWidth - offsetWidth - 10 < 0 ==> left == 10
      ensures pageX + 10 < 0 && pageX + 10 + offsetWidth <= innerWidth ==> left == 10
      ensures left == pageX + 10 || left == innerWidth - offsetWidth - 10 || left == 10
      ensures offsetWidth + 10 <= innerWidth ==> left + offsetWidth <= innerWidth
      ensures top + offsetHeight <= innerHeight
      ensures top <= pageY - 30
      ensures pageY - 30 + offsetHeight <= innerHeight ==> top == pageY - 30
      ensures pageY - 30 + offsetHeight > innerHeight ==> top == innerHeight - offsetHeight - 10
    {
      var startTime := FormatTooltipTime(localTime(entry.time));
      var endTime := FormatTooltipTime(localTime(entry.time + IntervalMs));
      heading := startTime + " - " + endTime;
      opacity := 1;
      left, top := TooltipPosition(pageX, pageY, offsetWidth, offsetHeight, innerWidth, innerHeight);
    }

    /** The mouse leaves: the tooltip turns transparent and stays where it is. */
    method OnMouseLeave()
      modifies this`opacity
      ensures opacity == 0
    {
      opacity := 0;
    }
  }
}
