/** The backend's `getSystemInfo`: the raw operating-system readings are
    parameters, and the function only converts and arranges them. */
module SystemService {

  /** Bytes in one binary megabyte, `1024 * 1024`. */
  const BytesPerMiB: nat := 1024 * 1024

  /** The service always reports one monitor. */
  const MonitorCount := 1

  datatype CpuCore = CpuCore(model: string, speed: nat)

  /** What the operating system reports: memory sizes in bytes, the 1-, 5- and
      15-minute load averages, the CPU list, the kernel name and release, and
      the uptime in seconds. */
  datatype Readings = Readings(
    totalBytes: nat,
    freeBytes: nat,
    loadavg: (real, real, real),
    cpus: seq<CpuCore>,
    osType: string,
    osRelease: string,
    uptime: real)

  /** Memory figures in binary megabytes. */
  datatype Ram = Ram(total: int, used: int, free: int)

  datatype SystemInfo = SystemInfo(
    monitors: int,
    ram: Ram,
    loadAverage: real,
    operatingSystem: string,
    uptime: real,
    cpuInfo: seq<CpuCore>)

  /** `Math.round(bytes / (1024 * 1024))`: the nearest whole binary megabyte,
      halves rounded up. */
  function ToMiB(bytes: nat): (mb: nat)
    ensures mb * BytesPerMiB <= bytes + BytesPerMiB / 2
    ensures bytes + BytesPerMiB / 2 < (mb + 1) * BytesPerMiB
  {
    (bytes + BytesPerMiB / 2) / BytesPerMiB
  }

  /** Rounding to megabytes never reverses the order of two sizes. */
  lemma ToMiBMonotone(a: nat, b: nat)
    ensures a <= b ==> ToMiB(a) <= ToMiB(b)
  {
  }

  /** The record the service returns. */
  function GetSystemInfo(r: Readings): (info: SystemInfo)
    ensures info.ram.total == ToMiB(r.totalBytes)
    ensures info.ram.free == ToMiB(r.freeBytes)
    ensures info.ram.used + info.ram.free == info.ram.total
    ensures r.freeBytes <= r.totalBytes ==> 0 <= info.ram.used <= info.ram.total
    ensures info.monitors == MonitorCount
    ensures info.operatingSystem == r.osType + " " + r.osRelease
    ensures info.loadAverage == r.loadavg.0
    ensures info.uptime == r.uptime && info.cpuInfo == r.cpus
  {
    var total := ToMiB(r.totalBytes);
    var free := ToMiB(r.freeBytes);
    ToMiBMonotone(r.freeBytes, r.totalBytes);
    SystemInfo(MonitorCount, Ram(total, total - free, free), r.loadavg.0, r.osType + " " + r.osRelease, r.uptime, r.cpus)
  }
}
