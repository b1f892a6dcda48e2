/** The system-information record as the dashboard reads it from the socket.
    Every field the page or its components touch may be missing from the JSON,
    so each one is optional; numbers are JSON numbers, modelled as reals. */
module DeviceInfo {
  import opened Wrappers

  datatype Ram = Ram(total: real, used: real, free: real)

  datatype Cpu = Cpu(model: Option<string>, loadAverage: Option<real>)

  datatype Display = Display(model: Option<string>, resolution: Option<string>)

  datatype Info = Info(
    cpu: Option<Cpu>,
    ram: Option<Ram>,
    macAddress: Option<string>,
    hostName: Option<string>,
    location: Option<string>,
    displayInfo: Option<seq<Display>>,
    monitors: Option<int>,
    ipAddress: Option<string>,
    operatingSystem: Option<string>
  )
}
