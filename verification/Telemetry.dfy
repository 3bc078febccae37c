/**
 The validated telemetry message and the two store keys derived from it.
 Numbers are reals; a timestamp is a UTC calendar instant.
 */
module Telemetry {
  import opened Wrappers

  datatype UtcTime = UtcTime(year: nat, month: nat, day: nat, hour: nat, micros: nat)

  datatype TelemetryRecord = TelemetryRecord(
    deviceId: string,
    gatewayId: string,
    tsDevice: UtcTime,
    seqNo: nat,
    lat: real,
    lon: real,
    elevationM: real,
    tempC: real,
    rhPct: real,
    smokePpm: real,
    windSpeedMs: Option<real>,
    windDirDeg: Option<real>,
    batteryPct: real,
    status: string)

  /** Identity of a reading in the hot table: the pair behind `pk` and `sk`. */
  datatype HotKey = HotKey(device: string, seqNo: nat)

  /** Identity of an archived object: UTC date and hour as well as the reading. */
  datatype ColdKey = ColdKey(year: nat, month: nat, day: nat, hour: nat, device: string, seqNo: nat)

  function HotKeyOf(r: TelemetryRecord): HotKey {
    HotKey(r.deviceId, r.seqNo)
  }

  function ColdKeyOf(r: TelemetryRecord): ColdKey {
    ColdKey(r.tsDevice.year, r.tsDevice.month, r.tsDevice.day, r.tsDevice.hour, r.deviceId, r.seqNo)
  }
}
