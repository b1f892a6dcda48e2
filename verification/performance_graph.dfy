/** The rolling chart of one metric: a window of the last ten readings, a
    vertical scale that only grows, bar heights and threshold colours. Each
    change of the `data` prop is one `Sample`; the clock's time-of-day text is
    a parameter of the sample. */
module PerformanceGraph {
  import opened Wrappers
  import Rounding

  /** How many readings the chart keeps. */
  const WindowSize: nat := 10

  /** The scale before any reading exceeds it. */
  const InitialScale: int := 100

  const CriticalColor := "#e74c3c"
  const WarningColor := "#f39c12"

  /** The text shown in place of a value while the window is empty. */
  const Placeholder := "--"

  datatype Point = Point(value: real, timestamp: string)

  /** The component's state: the plotted window and the top of the y-axis. */
  datatype Graph = Graph(points: seq<Point>, scale: int)

  /** One change of the `data` prop: its `value` (absent when `data` or
      `data.value` is missing) and the local time text at that moment. */
  datatype Sample = Sample(value: Option<real>, timestamp: string)

  datatype Thresholds = Thresholds(warning: real, critical: real)

  function Initial(): Graph {
    Graph([], InitialScale)
  }

  /** What every reachable state satisfies. */
  predicate Valid(g: Graph) {
    && |g.points| <= WindowSize
    && g.scale >= InitialScale
    && g.scale % 10 == 0
  }

  /** `data && data.value` is truthy: present and not zero. */
  predicate Accepts(value: Option<real>) {
    value.Some? && value.value != 0.0
  }

  /** The y-axis top after seeing `v`: unchanged unless `v` exceeds it, and then
      the next multiple of ten at or above `v`. */
  function NextScale(scale: int, v: real): (r: int)
    ensures r >= scale
    ensures v <= scale as real ==> r == scale
    ensures v > scale as real ==> r % 10 == 0 && v <= r as real < v + 10.0
  {
    if v > scale as real then Rounding.Ceil(v / 10.0) * 10 else scale
  }

  /** Appends `p` and keeps only the newest `WindowSize` points. */
  function Slide(points: seq<Point>, p: Point): (r: seq<Point>)
    ensures |r| <= WindowSize
    ensures |r| > 0 && r[|r| - 1] == p
    ensures |points| < WindowSize ==> r == points + [p]
    ensures |points| >= WindowSize ==> |r| == WindowSize
  {
    var updated := points + [p];
    if |updated| > WindowSize then updated[|updated| - WindowSize..] else updated
  }

  /** The effect that runs when the `data` prop changes. */
  function Update(g: Graph, s: Sample): (r: Graph)
    ensures !Accepts(s.value) ==> r == g
    ensures Accepts(s.value) ==> |r.points| > 0 && r.points[|r.points| - 1] == Point(s.value.value, s.timestamp)
    ensures Accepts(s.value) && |g.points| < WindowSize ==> r.points == g.points + [Point(s.value.value, s.timestamp)]
    ensures Accepts(s.value) ==> |r.points| <= WindowSize
    ensures r.scale >= g.scale
    ensures Accepts(s.value) ==> s.value.value <= r.scale as real
    ensures Valid(g) ==> Valid(r)
  {
    if !Accepts(s.value) then g
    else
      var v := s.value.value;
      Graph(Slide(g.points, Point(v, s.timestamp)), NextScale(g.scale, v))
  }

  /** The state after a sequence of prop changes, starting from the initial state. */
  function Replay(samples: seq<Sample>): Graph
    decreases |samples|
  {
    if |samples| == 0 then Initial()
    else Update(Replay(samples[..|samples| - 1]), samples[|samples| - 1])
  }

  /** The readings the chart accepted, oldest first. */
  function AcceptedPoints(samples: seq<Sample>): seq<Point>
    decreases |samples|
  {
    if |samples| == 0 then []
    else
      var last := samples[|samples| - 1];
      AcceptedPoints(samples[..|samples| - 1])
        + (if Accepts(last.value) then [Point(last.value.value, last.timestamp)] else [])
  }

  /** The newest `n` elements of `xs`. */
  function LastN<T>(xs: seq<T>, n: nat): (r: seq<T>)
    ensures |r| == if |xs| < n then |xs| else n
  {
    if |xs| <= n then xs else xs[|xs| - n..]
  }

  /** The window is exactly the newest ten accepted readings, in arrival order. */
  lemma {:induction false} ReplayWindow(samples: seq<Sample>)
    ensures Replay(samples).points == LastN(AcceptedPoints(samples), WindowSize)
    decreases |samples|
  {
    if |samples| > 0 {
      var prefix := samples[..|samples| - 1];
      var last := samples[|samples| - 1];
      ReplayWindow(prefix);
      if Accepts(last.value) {
        var a := AcceptedPoints(prefix);
        var p := Point(last.value.value, last.timestamp);
        assert AcceptedPoints(samples) == a + [p];
        if |a| >= WindowSize {
          var w := LastN(a, WindowSize);
          assert Slide(w, p) == (w + [p])[1..];
          assert (w + [p])[1..] == LastN(a + [p], WindowSize);
        }
      }
    }
  }

  /** The y-axis top is the least multiple of ten that is at least 100 and at
      least every accepted reading. */
  lemma {:induction false} ReplayScale(samples: seq<Sample>)
    ensures Replay(samples).scale >= InitialScale
    ensures Replay(samples).scale % 10 == 0
    ensures forall i :: 0 <= i < |AcceptedPoints(samples)| ==>
              AcceptedPoints(samples)[i].value <= Replay(samples).scale as real
    ensures Replay(samples).scale == InitialScale
         || exists i :: (0 <= i < |AcceptedPoints(samples)|
                         && Replay(samples).scale as real < AcceptedPoints(samples)[i].value + 10.0)
    decreases |samples|
  {
    if |samples| > 0 {
      var prefix := samples[..|samples| - 1];
      var last := samples[|samples| - 1];
      ReplayScale(prefix);
      var a := AcceptedPoints(prefix);
      var g := Replay(prefix);
      if Accepts(last.value) {
        var v := last.value.value;
        var a' := AcceptedPoints(samples);
        assert a' == a + [Point(v, last.timestamp)];
        var r := Replay(samples);
        assert r.scale == NextScale(g.scale, v);
        if v > g.scale as real {
          var k := |a|;
          assert 0 <= k < |a'| && r.scale as real < a'[k].value + 10.0;
          assert exists i :: (0 <= i < |AcceptedPoints(samples)|
                              && Replay(samples).scale as real < AcceptedPoints(samples)[i].value + 10.0);
        } else if g.scale != InitialScale {
          assert r.scale == g.scale;
          var i :| 0 <= i < |a| && g.scale as real < a[i].value + 10.0;
          assert a'[i] == a[i];
          assert 0 <= i < |a'| && r.scale as real < a'[i].value + 10.0;
        }
      } else {
        assert AcceptedPoints(samples) == a;
        assert Replay(samples) == g;
      }
    }
  }

  /** Every reachable state keeps at most ten points and a scale that is a
      multiple of ten no smaller than 100. */
  lemma ReplayValid(samples: seq<Sample>)
    ensures Valid(Replay(samples))
  {
    ReplayWindow(samples);
    ReplayScale(samples);
  }

  /** `calculateHeight`: the reading as a percentage of the scale, never below 1. */
  function Height(scale: int, value: real): (r: real)
    requires scale > 0
    ensures r >= 1.0
    ensures r >= value / scale as real * 100.0
    ensures r == 1.0 || r == value / scale as real * 100.0
    ensures value <= scale as real ==> r <= 100.0
  {
    var percentage := value / scale as real * 100.0;
    assert value <= scale as real ==> percentage <= 100.0;
    if percentage > 1.0 then percentage else 1.0
  }

  datatype Level = Normal | Warning | Critical

  function Rank(l: Level): nat {
    match l
    case Normal => 0
    case Warning => 1
    case Critical => 2
  }

  /** The severity band of a reading: critical first, then warning. */
  function LevelOf(t: Thresholds, value: real): (l: Level)
    ensures l == Critical <==> value >= t.critical
    ensures l == Warning <==> t.warning <= value < t.critical
  {
    if value >= t.critical then Critical
    else if value >= t.warning then Warning
    else Normal
  }

  /** A larger reading is never in a milder band. */
  lemma LevelMonotone(t: Thresholds, a: real, b: real)
    requires a <= b
    ensures Rank(LevelOf(t, a)) <= Rank(LevelOf(t, b))
  {
  }

  /** `getValueColor`: the colour for a reading; the chart's own colour when
      the series has no thresholds. */
  function ValueColor(thresholds: Option<Thresholds>, base: string, value: real): (c: string)
    ensures thresholds.None? ==> c == base
    ensures thresholds.Some? && value >= thresholds.value.critical ==> c == CriticalColor
    ensures thresholds.Some? && thresholds.value.warning <= value < thresholds.value.critical ==> c == WarningColor
    ensures thresholds.Some? && value < thresholds.value.warning && value < thresholds.value.critical ==> c == base
  {
    match thresholds
    case None => base
    case Some(t) =>
      match LevelOf(t, value)
      case Critical => CriticalColor
      case Warning => WarningColor
      case Normal => base
  }

  /** The header value: the placeholder while no reading has been accepted,
      otherwise the newest point through the series' formatter. */
  function HeaderText(g: Graph, format: real -> string): (r: string)
    ensures |g.points| == 0 ==> r == Placeholder
    ensures |g.points| > 0 ==> r == format(g.points[|g.points| - 1].value)
  {
    if |g.points| == 0 then Placeholder else format(g.points[|g.points| - 1].value)
  }

  /** After any history the header shows the newest accepted reading, or the
      placeholder when there has been none. */
  lemma HeaderShowsNewest(samples: seq<Sample>, format: real -> string)
    ensures |AcceptedPoints(samples)| == 0 ==> HeaderText(Replay(samples), format) == Placeholder
    ensures |AcceptedPoints(samples)| > 0 ==>
              HeaderText(Replay(samples), format)
              == format(AcceptedPoints(samples)[|AcceptedPoints(samples)| - 1].value)
  {
    ReplayWindow(samples);
  }
}
