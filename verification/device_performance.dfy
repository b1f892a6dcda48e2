/** The performance panel: derives the CPU-load and memory-usage series that
    feed the two charts from the latest system-information record. */
module DevicePerformance {
  import opened Wrappers
  import opened DeviceInfo
  import Rounding
  import Decimal
  import PerformanceGraph

  /** Load-average bands of the CPU chart. */
  const CpuThresholds := PerformanceGraph.Thresholds(1.0, 2.0)

  /** Percentage bands of the memory chart. */
  const RamThresholds := PerformanceGraph.Thresholds(70.0, 90.0)

  /** The base colour each chart is drawn in. */
  const CpuChartColor := "#e74c3c"
  const RamChartColor := "#3498db"

  /** How a series renders its current value: two decimals, or a whole
      percentage followed by `%`. */
  datatype Format = FixedTwo | PercentSign

  datatype Series = Series(value: real, unit: string, thresholds: PerformanceGraph.Thresholds, format: Format)

  /** The panel's state: the last series handed to each chart (`null` at first). */
  datatype Panel = Panel(cpu: Option<Series>, ram: Option<Series>)

  function Initial(): Panel {
    Panel(None, None)
  }

  /** Every series carries thresholds whose warning band lies below its critical band. */
  predicate OrderedThresholds(p: Panel) {
    && (p.cpu.Some? ==> p.cpu.value.thresholds.warning < p.cpu.value.thresholds.critical)
    && (p.ram.Some? ==> p.ram.value.thresholds.warning < p.ram.value.thresholds.critical)
  }

  /** The CPU load reading, when the record has `cpu.loadAverage`. */
  function LoadReading(info: Info): Option<real> {
    if info.cpu.Some? then info.cpu.value.loadAverage else None
  }

  /** The memory record, when present with a positive total. */
  function RamReading(info: Info): Option<Ram> {
    if info.ram.Some? && info.ram.value.total > 0.0 then info.ram else None
  }

  /** The memory usage as a whole percentage, `Math.round(used / total * 100)`. */
  function RamPercent(used: real, total: real): (p: int)
    requires total > 0.0
    ensures 0.0 <= used <= total ==> 0 <= p <= 100
    ensures used == total ==> p == 100
    ensures used == 0.0 ==> p == 0
  {
    Rounding.Percent(used, total)
  }

  /** The effect run when the record changes: each series is replaced only when
      the record carries the reading it needs, and is otherwise kept. */
  function Derive(p: Panel, info: Option<Info>): (r: Panel)
    ensures info.None? ==> r == p
    ensures info.None? || LoadReading(info.value).None? ==> r.cpu == p.cpu
    ensures info.Some? && LoadReading(info.value).Some? ==>
              r.cpu == Some(Series(LoadReading(info.value).value, "", CpuThresholds, FixedTwo))
    ensures info.None? || RamReading(info.value).None? ==> r.ram == p.ram
    ensures info.Some? && RamReading(info.value).Some? ==>
              && r.ram.Some?
              && r.ram.value.value == RamPercent(info.value.ram.value.used, info.value.ram.value.total) as real
              && r.ram.value.unit == "%"
              && r.ram.value.thresholds == RamThresholds
              && r.ram.value.format == PercentSign
    ensures OrderedThresholds(p) ==> OrderedThresholds(r)
  {
    match info
    case None => p
    case Some(d) =>
      var cpu := match LoadReading(d)
        case Some(load) => Some(Series(load, "", CpuThresholds, FixedTwo))
        case None => p.cpu;
      var ram := match RamReading(d)
        case Some(m) => Some(Series(RamPercent(m.used, m.total) as real, "%", RamThresholds, PercentSign))
        case None => p.ram;
      Panel(cpu, ram)
  }

  /** A memory series derived from a consistent record (used between 0 and
      total) always plots a value between 0 and 100. */
  lemma RamSeriesInRange(p: Panel, info: Info)
    requires info.ram.Some? && info.ram.value.total > 0.0
    requires 0.0 <= info.ram.value.used <= info.ram.value.total
    ensures Derive(p, Some(info)).ram.Some?
    ensures 0.0 <= Derive(p, Some(info)).ram.value.value <= 100.0
  {
  }

  /** The header text of the memory chart: the whole percentage then `%`. */
  function PercentLabel(v: int): (s: string)
    ensures |s| >= 2 && s[|s| - 1] == '%'
    ensures v >= 0 ==> s[..|s| - 1] == Decimal.NatToString(v)
  {
    Decimal.IntToString(v) + "%"
  }

  /** The memory label can be read back: dropping the `%` and parsing the
      digits gives the percentage. */
  lemma PercentLabelReadsBack(v: nat)
    ensures Decimal.AllDigits(PercentLabel(v)[..|PercentLabel(v)| - 1])
    ensures Decimal.ParseDigits(PercentLabel(v)[..|PercentLabel(v)| - 1]) == v
  {
    Decimal.ParseNatToString(v);
  }

  /** The CPU chart's base colour is the critical colour, so a load below the
      warning band is drawn exactly like a critical one. */
  lemma CpuNormalLooksCritical(v: real)
    requires v < CpuThresholds.warning
    ensures PerformanceGraph.LevelOf(CpuThresholds, v) == PerformanceGraph.Normal
    ensures PerformanceGraph.ValueColor(Some(CpuThresholds), CpuChartColor, v)
         == PerformanceGraph.ValueColor(Some(CpuThresholds), CpuChartColor, CpuThresholds.critical)
  {
  }

  /** On the memory chart, readings in different bands always get different colours. */
  lemma RamColoursTellLevelsApart(a: real, b: real)
    requires PerformanceGraph.LevelOf(RamThresholds, a) != PerformanceGraph.LevelOf(RamThresholds, b)
    ensures PerformanceGraph.ValueColor(Some(RamThresholds), RamChartColor, a)
         != PerformanceGraph.ValueColor(Some(RamThresholds), RamChartColor, b)
  {
  }
}
