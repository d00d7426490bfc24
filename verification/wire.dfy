/** The messages that reporter and server exchange (common/thrift/RMS.thrift),
    reduced to the fields that some modelled code reads. */
module Wire {

  datatype Option<+T> = None | Some(value: T) {
    function GetOr(default: T): T {
      match this
      case Some(v) => v
      case None => default
    }
  }

  /** A C++ double, seen without rounding: a real number, or one of the values
      (NaN, infinity) that a division by zero produces. */
  datatype Double = Fin(r: real) | NonFinite

  datatype Architecture = X86_64 | X86 | Arm | Arm64 | UnknownArch

  datatype VersionData = VersionData(major: int, minor: int, release: int)

  datatype CpuInfo = CpuInfo(cores: int, cacheSize: int, arch: Architecture, name: string, vendor: string)

  datatype StorageInfo = StorageInfo(dev: string, fsType: string, free: nat, total: nat, mountPoint: string)

  /** The compared part of a SystemInfo, plus its storage list. */
  datatype SystemInfo = SystemInfo(
    systemName: string, hostName: string,
    osVersion: VersionData, clientVersion: VersionData,
    cpu: CpuInfo, storage: seq<StorageInfo>)

  datatype RamData = RamData(mainTotal: int, mainFree: int, swapTotal: int, swapFree: int)

  datatype RequestData =
    | CpuUsage(usage: seq<Double>)
    | RamUsage(ram: RamData)
    | NetworkUsage
    | ExecutorResult(id: int, returnType: int, code: int, timeFinished: int)
    | Ping

  datatype RmsRequest = RmsRequest(timestamp: int, data: seq<RequestData>)

  /** What the server may ask of the reporter in the reply to a report. */
  datatype Response =
    | SendSystemInfo
    | RunCommand(id: nat, command: string)
    | RunScript(filename: string)
}
