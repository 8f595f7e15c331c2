/**
 The device side of the IoT risk manager: the static table of base risks
 keyed by device type and firmware version, the risk score computed when a
 device is created, and the device record itself.

 The wall clock and the random source of IoT.py become parameters.
 `ageDays` is the whole number of days between the device's last-updated
 timestamp and the moment of scoring. IoT.py sets that timestamp when it
 creates the device and scores it straight away, so there the value is 0,
 or -1 if the clock steps back (see `FreshDeviceHasNoAgePenalty`).
 `residual` is the value the random draw in [0, 2] produced.
 */
module Devices {

  datatype DeviceStatus = Active | Inactive | UnderMaintenance

  /** A device as stored in a report. The risk level is fixed at creation. */
  datatype Device = Device(
    deviceId: string,
    deviceType: string,
    firmwareVersion: string,
    status: DeviceStatus,
    riskLevel: int)

  /** An age of more than this many days since the last update earns the age penalty. */
  const StaleFirmwareDays: int := 180

  /** Risk added for an age above `StaleFirmwareDays`. */
  const StaleFirmwarePenalty: int := 2

  /** Largest value the random residual can take (the smallest is 0). */
  const MaxResidual: int := 2

  /** The base-risk table, nested by device type and then firmware version. */
  const DeviceRiskLevels: map<string, map<string, int>> := map[
    "smart_light" := map["1.0" := 5, "1.1" := 3, "1.2" := 2],
    "thermostat" := map["1.0" := 4, "1.1" := 3, "1.2" := 1],
    "security_camera" := map["1.0" := 6, "1.1" := 4, "1.2" := 3],
    "door_lock" := map["1.0" := 7, "1.1" := 5, "1.2" := 3]
  ]

  /** The same table written flat, one (type, version, risk) row per entry. */
  const RiskRows: seq<(string, string, int)> := [
    ("smart_light", "1.0", 5), ("smart_light", "1.1", 3), ("smart_light", "1.2", 2),
    ("thermostat", "1.0", 4), ("thermostat", "1.1", 3), ("thermostat", "1.2", 1),
    ("security_camera", "1.0", 6), ("security_camera", "1.1", 4), ("security_camera", "1.2", 3),
    ("door_lock", "1.0", 7), ("door_lock", "1.1", 5), ("door_lock", "1.2", 3)
  ]

  /** Row `i` of the flat table is about the pair (deviceType, firmwareVersion). */
  predicate RowFor(i: int, deviceType: string, firmwareVersion: string)
    requires 0 <= i < |RiskRows|
  {
    RiskRows[i].0 == deviceType && RiskRows[i].1 == firmwareVersion
  }

  /** Some row of the flat table is about the pair. */
  predicate Listed(deviceType: string, firmwareVersion: string)
  {
    exists i :: 0 <= i < |RiskRows| && RowFor(i, deviceType, firmwareVersion)
  }

  /**
   Base risk of a (type, version) pair: the table value, or 0 when either the
   type or the version under that type is missing. Unknown types are legal.
   */
  function BaseRisk(deviceType: string, firmwareVersion: string): (base: int)
    ensures forall i :: 0 <= i < |RiskRows| && RowFor(i, deviceType, firmwareVersion) ==> base == RiskRows[i].2
    ensures 0 <= base <= 7
  {
    var versions := if deviceType in DeviceRiskLevels then DeviceRiskLevels[deviceType] else map[];
    if firmwareVersion in versions then versions[firmwareVersion] else 0
  }

  /**
   The risk score: base risk, plus the age penalty when more than 180 days
   separate the last update from the moment of scoring, plus the residual.
   */
  function CalculateRisk(deviceType: string, firmwareVersion: string, ageDays: int, residual: int): (risk: int)
    requires 0 <= residual <= MaxResidual
    ensures BaseRisk(deviceType, firmwareVersion) <= risk <= BaseRisk(deviceType, firmwareVersion) + 4
    ensures ageDays <= StaleFirmwareDays ==> risk <= BaseRisk(deviceType, firmwareVersion) + 2
    ensures ageDays > StaleFirmwareDays ==> BaseRisk(deviceType, firmwareVersion) + 2 <= risk
    ensures risk >= 0
  {
    var base := BaseRisk(deviceType, firmwareVersion);
    var aged := if ageDays > StaleFirmwareDays then base + StaleFirmwarePenalty else base;
    aged + residual
  }

  /** Building a device scores it once; the stored risk never changes afterwards. */
  function NewDevice(deviceId: string, deviceType: string, firmwareVersion: string,
                     status: DeviceStatus, ageDays: int, residual: int): (d: Device)
    requires 0 <= residual <= MaxResidual
    ensures d.deviceId == deviceId && d.deviceType == deviceType
    ensures d.firmwareVersion == firmwareVersion && d.status == status
    ensures d.riskLevel == CalculateRisk(deviceType, firmwareVersion, ageDays, residual)
  {
    Device(deviceId, deviceType, firmwareVersion, status,
           CalculateRisk(deviceType, firmwareVersion, ageDays, residual))
  }

  /** The residual is recoverable from the score: scoring is injective in it. */
  lemma ResidualDeterminedByRisk(deviceType: string, firmwareVersion: string, ageDays: int, r1: int, r2: int)
    requires 0 <= r1 <= MaxResidual && 0 <= r2 <= MaxResidual
    requires CalculateRisk(deviceType, firmwareVersion, ageDays, r1) == CalculateRisk(deviceType, firmwareVersion, ageDays, r2)
    ensures r1 == r2
  {
  }

  /** A larger residual never lowers the score. */
  lemma RiskMonotoneInResidual(deviceType: string, firmwareVersion: string, ageDays: int, r1: int, r2: int)
    requires 0 <= r1 <= r2 <= MaxResidual
    ensures CalculateRisk(deviceType, firmwareVersion, ageDays, r1) <= CalculateRisk(deviceType, firmwareVersion, ageDays, r2)
  {
  }

  /** With the residual at 0 the score is the base risk plus the age penalty alone. */
  lemma ZeroResidualScore(deviceType: string, firmwareVersion: string, ageDays: int)
    ensures CalculateRisk(deviceType, firmwareVersion, ageDays, 0)
         == BaseRisk(deviceType, firmwareVersion) + (if ageDays > 180 then 2 else 0)
  {
  }

  /**
   The age is measured from the device's own creation time, so at
   construction it is zero (or negative if the clock stepped back) and the
   age penalty can never apply: the stored risk is base risk plus residual.
   */
  lemma FreshDeviceHasNoAgePenalty(deviceId: string, deviceType: string, firmwareVersion: string,
                                   status: DeviceStatus, ageDays: int, residual: int)
    requires 0 <= residual <= MaxResidual
    requires ageDays <= 0
    ensures NewDevice(deviceId, deviceType, firmwareVersion, status, ageDays, residual).riskLevel
         == BaseRisk(deviceType, firmwareVersion) + residual
  {
  }

  /** Every row of the flat table is what the nested table gives. */
  lemma TableRowsAgree()
    ensures forall i :: 0 <= i < |RiskRows| ==> BaseRisk(RiskRows[i].0, RiskRows[i].1) == RiskRows[i].2
  {
  }

  /** A pair missing from the flat table, such as any unknown type, has base risk 0. */
  lemma UnlistedPairScoresZero(deviceType: string, firmwareVersion: string)
    requires !Listed(deviceType, firmwareVersion)
    ensures BaseRisk(deviceType, firmwareVersion) == 0
  {
    if deviceType in DeviceRiskLevels && firmwareVersion in DeviceRiskLevels[deviceType] {
      var i := RowOf(deviceType, firmwareVersion);
      assert false;
    }
  }

  /** The row of the flat table for a pair found in the nested table. */
  function RowOf(deviceType: string, firmwareVersion: string): (i: int)
    requires deviceType in DeviceRiskLevels && firmwareVersion in DeviceRiskLevels[deviceType]
    ensures 0 <= i < |RiskRows| && RowFor(i, deviceType, firmwareVersion)
  {
    var offset := if firmwareVersion == "1.0" then 0 else if firmwareVersion == "1.1" then 1 else 2;
    if deviceType == "smart_light" then offset
    else if deviceType == "thermostat" then 3 + offset
    else if deviceType == "security_camera" then 6 + offset
    else 9 + offset
  }

  /** smart_light 1.1 with no residual and fresh firmware scores 3. */
  lemma SmartLightExample(ageDays: int)
    requires ageDays <= 180
    ensures CalculateRisk("smart_light", "1.1", ageDays, 0) == 3
  {
  }

  /** An unknown type such as a drone has base risk 0; a residual of 1 scores 1. */
  lemma UnknownTypeExample(firmwareVersion: string, ageDays: int)
    requires ageDays <= 180
    ensures BaseRisk("drone", firmwareVersion) == 0
    ensures CalculateRisk("drone", firmwareVersion, ageDays, 1) == 1
  {
  }
}
