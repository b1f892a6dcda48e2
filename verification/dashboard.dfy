/** How the backend's record reads on the page once it arrives over the
    socket: the dashboard sees the fields the service fills in and nothing else. */
module Dashboard {
  import opened Wrappers
  import DeviceInfo
  import SystemService
  import DevicePerformance
  import DeviceManagement

  /** The service's record as the page reads it after JSON decoding. The
      service puts `loadAverage` at the top level and sends no `cpu` object,
      no MAC address and no display list. */
  function AsDeviceInfo(s: SystemService.SystemInfo): DeviceInfo.Info {
    DeviceInfo.Info(
      cpu := None,
      ram := Some(DeviceInfo.Ram(s.ram.total as real, s.ram.used as real, s.ram.free as real)),
      macAddress := None,
      hostName := None,
      location := None,
      displayInfo := None,
      monitors := Some(s.monitors),
      ipAddress := None,
      operatingSystem := Some(s.operatingSystem))
  }

  /** Fed the service's record, the memory chart plots a percentage between 0
      and 100 whenever the machine has at least half a megabyte; the CPU chart
      never receives a series; the page identifier stays on its loading text. */
  lemma ServiceRecordOnThePage(r: SystemService.Readings, p: DevicePerformance.Panel)
    requires r.freeBytes <= r.totalBytes
    requires SystemService.ToMiB(r.totalBytes) > 0
    ensures var d := DevicePerformance.Derive(p, Some(AsDeviceInfo(SystemService.GetSystemInfo(r))));
            && d.ram.Some?
            && 0.0 <= d.ram.value.value <= 100.0
            && d.cpu == p.cpu
    ensures DeviceManagement.DeviceId(Some(AsDeviceInfo(SystemService.GetSystemInfo(r)))) == DeviceManagement.LoadingId
  {
    var info := AsDeviceInfo(SystemService.GetSystemInfo(r));
    DevicePerformance.RamSeriesInRange(p, info);
  }
}
