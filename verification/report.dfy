/**
 The device report: an append-only list of devices and an append-only list
 of recommendations, the summary statistics over the devices, and the
 approve/reject workflow of a recommendation, including approval by the
 1-based number a user types in.
 */
module Report {
  import opened Devices

  /** Devices at or above this risk level count as high risk. */
  const HighRiskThreshold: int := 5

  datatype Recommendation = Recommendation(description: string, approved: bool)

  datatype DeviceReport = DeviceReport(devices: seq<Device>, recommendations: seq<Recommendation>)

  /** Counts over the devices of a report. */
  datatype Statistics = Statistics(
    total: nat,
    active: nat,
    inactive: nat,
    maintenance: nat,
    highRisk: nat,
    lowRisk: nat)

  /** Outcome of approving a recommendation by its 1-based number. */
  datatype ApprovalStatus = RecommendationApproved | InvalidRecommendationIndex

  datatype ApprovalResult = ApprovalResult(report: DeviceReport, status: ApprovalStatus)

  // ---------------------------------------------------------------------------
  // Recommendations

  /** A new recommendation is pending. */
  function NewRecommendation(description: string): (rec: Recommendation)
    ensures rec.description == description
    ensures !rec.approved
  {
    Recommendation(description, false)
  }

  /** Marks a recommendation approved; its text is kept. */
  function Approve(rec: Recommendation): (rec': Recommendation)
    ensures rec'.approved
    ensures rec'.description == rec.description
  {
    rec.(approved := true)
  }

  /** Marks a recommendation pending again; its text is kept. */
  function Reject(rec: Recommendation): (rec': Recommendation)
    ensures !rec'.approved
    ensures rec'.description == rec.description
  {
    rec.(approved := false)
  }

  /** Approving or rejecting twice is the same as doing it once. */
  lemma ApproveRejectIdempotent(rec: Recommendation)
    ensures Approve(Approve(rec)) == Approve(rec)
    ensures Reject(Reject(rec)) == Reject(rec)
  {
  }

  /** Rejecting an approved recommendation returns it to its pending form. */
  lemma RejectUndoesApprove(description: string)
    ensures Reject(Approve(NewRecommendation(description))) == NewRecommendation(description)
    ensures Approve(Reject(Approve(NewRecommendation(description)))) == Approve(NewRecommendation(description))
  {
  }

  // ---------------------------------------------------------------------------
  // The report's two lists

  /** A report with no devices and no recommendations. */
  function NewReport(): (report: DeviceReport)
    ensures |report.devices| == 0 && |report.recommendations| == 0
  {
    DeviceReport([], [])
  }

  /**
   Appends a device. No uniqueness of device ids is enforced; the earlier
   devices and the recommendations are untouched.
   */
  function AddDevice(report: DeviceReport, device: Device): (report': DeviceReport)
    ensures |report'.devices| == |report.devices| + 1
    ensures report'.devices[|report.devices|] == device
    ensures report'.devices[..|report.devices|] == report.devices
    ensures report'.recommendations == report.recommendations
  {
    report.(devices := report.devices + [device])
  }

  /** Appends a recommendation; the earlier ones and the devices are untouched. */
  function AddRecommendation(report: DeviceReport, rec: Recommendation): (report': DeviceReport)
    ensures |report'.recommendations| == |report.recommendations| + 1
    ensures report'.recommendations[|report.recommendations|] == rec
    ensures report'.recommendations[..|report.recommendations|] == report.recommendations
    ensures report'.devices == report.devices
  {
    report.(recommendations := report.recommendations + [rec])
  }

  /** Adding a device twice with the same id keeps both copies. */
  lemma DuplicateDevicesKept(report: DeviceReport, device: Device)
    ensures var twice := AddDevice(AddDevice(report, device), device);
      |twice.devices| == |report.devices| + 2
      && twice.devices[|report.devices|] == twice.devices[|report.devices| + 1] == device
  {
  }

  // ---------------------------------------------------------------------------
  // Statistics

  /** Positions in `ds` holding a device with status `s`. */
  ghost function StatusPositions(ds: seq<Device>, s: DeviceStatus): set<int>
  {
    set i | 0 <= i < |ds| && ds[i].status == s
  }

  /** Positions in `ds` holding a device at or above the high-risk threshold. */
  ghost function HighRiskPositions(ds: seq<Device>): set<int>
  {
    set i | 0 <= i < |ds| && ds[i].riskLevel >= HighRiskThreshold
  }

  /** Positions in `ds` holding a device below the high-risk threshold. */
  ghost function LowRiskPositions(ds: seq<Device>): set<int>
  {
    set i | 0 <= i < |ds| && ds[i].riskLevel < HighRiskThreshold
  }

  /** Number of devices in `ds` with status `s`. */
  function CountStatus(ds: seq<Device>, s: DeviceStatus): (n: nat)
    ensures n <= |ds|
  {
    if |ds| == 0 then 0
    else CountStatus(ds[..|ds| - 1], s) + (if ds[|ds| - 1].status == s then 1 else 0)
  }

  /** Number of devices in `ds` at or above the high-risk threshold. */
  function CountHighRisk(ds: seq<Device>): (n: nat)
    ensures n <= |ds|
  {
    if |ds| == 0 then 0
    else CountHighRisk(ds[..|ds| - 1]) + (if ds[|ds| - 1].riskLevel >= HighRiskThreshold then 1 else 0)
  }

  /** Number of devices in `ds` below the high-risk threshold. */
  function CountLowRisk(ds: seq<Device>): (n: nat)
    ensures n <= |ds|
  {
    if |ds| == 0 then 0
    else CountLowRisk(ds[..|ds| - 1]) + (if ds[|ds| - 1].riskLevel < HighRiskThreshold then 1 else 0)
  }

  /** Dropping the last device removes at most its own position from the set. */
  lemma StatusPositionsStep(ds: seq<Device>, s: DeviceStatus)
    requires |ds| > 0
    ensures |StatusPositions(ds, s)| == |StatusPositions(ds[..|ds| - 1], s)| + (if ds[|ds| - 1].status == s then 1 else 0)
  {
    var last := |ds| - 1;
    var init := ds[..last];
    var before := StatusPositions(init, s);
    var after := StatusPositions(ds, s);
    var added: set<int> := if ds[last].status == s then {last} else {};
    forall j | j in after
      ensures j in before + added
    {
      if j < last {
        assert init[j] == ds[j];
      }
    }
    forall j | j in before + added
      ensures j in after
    {
      if j < last {
        assert init[j] == ds[j];
      }
    }
    assert after == before + added;
    assert before !! added;
  }

  /** The status count is the number of positions holding a device with that status. */
  lemma {:induction false} CountStatusIsPositionCount(ds: seq<Device>, s: DeviceStatus)
    ensures CountStatus(ds, s) == |StatusPositions(ds, s)|
  {
    if |ds| > 0 {
      CountStatusIsPositionCount(ds[..|ds| - 1], s);
      StatusPositionsStep(ds, s);
    }
  }

  /** Dropping the last device removes at most its own position from the set. */
  lemma HighRiskPositionsStep(ds: seq<Device>)
    requires |ds| > 0
    ensures |HighRiskPositions(ds)| == |HighRiskPositions(ds[..|ds| - 1])| + (if ds[|ds| - 1].riskLevel >= HighRiskThreshold then 1 else 0)
  {
    var last := |ds| - 1;
    var init := ds[..last];
    var before := HighRiskPositions(init);
    var after := HighRiskPositions(ds);
    var added: set<int> := if ds[last].riskLevel >= HighRiskThreshold then {last} else {};
    forall j | j in after
      ensures j in before + added
    {
      if j < last {
        assert init[j] == ds[j];
      }
    }
    forall j | j in before + added
      ensures j in after
    {
      if j < last {
        assert init[j] == ds[j];
      }
    }
    assert after == before + added;
    assert before !! added;
  }

  /** The high-risk count is the number of positions holding a device with risk level at least 5. */
  lemma {:induction false} CountHighRiskIsPositionCount(ds: seq<Device>)
    ensures CountHighRisk(ds) == |HighRiskPositions(ds)|
  {
    if |ds| > 0 {
      CountHighRiskIsPositionCount(ds[..|ds| - 1]);
      HighRiskPositionsStep(ds);
    }
  }

  /** Dropping the last device removes at most its own position from the set. */
  lemma LowRiskPositionsStep(ds: seq<Device>)
    requires |ds| > 0
    ensures |LowRiskPositions(ds)| == |LowRiskPositions(ds[..|ds| - 1])| + (if ds[|ds| - 1].riskLevel < HighRiskThreshold then 1 else 0)
  {
    var last := |ds| - 1;
    var init := ds[..last];
    var before := LowRiskPositions(init);
    var after := LowRiskPositions(ds);
    var added: set<int> := if ds[last].riskLevel < HighRiskThreshold then {last} else {};
    forall j | j in after
      ensures j in before + added
    {
      if j < last {
        assert init[j] == ds[j];
      }
    }
    forall j | j in before + added
      ensures j in after
    {
      if j < last {
        assert init[j] == ds[j];
      }
    }
    assert after == before + added;
    assert before !! added;
  }

  /** The low-risk count is the number of positions holding a device with risk level below 5. */
  lemma {:induction false} CountLowRiskIsPositionCount(ds: seq<Device>)
    ensures CountLowRisk(ds) == |LowRiskPositions(ds)|
  {
    if |ds| > 0 {
      CountLowRiskIsPositionCount(ds[..|ds| - 1]);
      LowRiskPositionsStep(ds);
    }
  }

  /** Every device has exactly one of the three statuses. */
  lemma {:induction false} StatusPartition(ds: seq<Device>)
    ensures CountStatus(ds, Active) + CountStatus(ds, Inactive) + CountStatus(ds, UnderMaintenance) == |ds|
  {
    if |ds| > 0 {
      StatusPartition(ds[..|ds| - 1]);
    }
  }

  /** Every device is either high or low risk, never both. */
  lemma {:induction false} RiskPartition(ds: seq<Device>)
    ensures CountHighRisk(ds) + CountLowRisk(ds) == |ds|
  {
    if |ds| > 0 {
      RiskPartition(ds[..|ds| - 1]);
    }
  }

  /** A device is high risk exactly when its risk level reaches the threshold. */
  lemma {:induction false} HighRiskCountsAll(ds: seq<Device>)
    ensures CountHighRisk(ds) == |ds| <==> forall i :: 0 <= i < |ds| ==> ds[i].riskLevel >= HighRiskThreshold
  {
    if |ds| > 0 {
      var init := ds[..|ds| - 1];
      HighRiskCountsAll(init);
      assert forall i :: 0 <= i < |init| ==> init[i] == ds[i];
    }
  }

  /** Extending a prefix of `ds` by one device adds that device to its counts. */
  lemma CountsExtend(ds: seq<Device>, i: int)
    requires 0 <= i < |ds|
    ensures CountStatus(ds[..i + 1], Active) == CountStatus(ds[..i], Active) + (if ds[i].status == Active then 1 else 0)
    ensures CountStatus(ds[..i + 1], Inactive) == CountStatus(ds[..i], Inactive) + (if ds[i].status == Inactive then 1 else 0)
    ensures CountStatus(ds[..i + 1], UnderMaintenance)
         == CountStatus(ds[..i], UnderMaintenance) + (if ds[i].status == UnderMaintenance then 1 else 0)
    ensures CountHighRisk(ds[..i + 1]) == CountHighRisk(ds[..i]) + (if ds[i].riskLevel >= HighRiskThreshold then 1 else 0)
    ensures CountLowRisk(ds[..i + 1]) == CountLowRisk(ds[..i]) + (if ds[i].riskLevel < HighRiskThreshold then 1 else 0)
  {
    assert ds[..i + 1][..i] == ds[..i];
  }

  /** Counts of the report's devices, in one pass over the list. */
  method GenerateStatistics(report: DeviceReport) returns (stats: Statistics)
    ensures stats.total == |report.devices|
    ensures stats.active == CountStatus(report.devices, Active)
    ensures stats.inactive == CountStatus(report.devices, Inactive)
    ensures stats.maintenance == CountStatus(report.devices, UnderMaintenance)
    ensures stats.highRisk == CountHighRisk(report.devices)
    ensures stats.lowRisk == CountLowRisk(report.devices)
    ensures stats.active + stats.inactive + stats.maintenance == stats.total
    ensures stats.highRisk + stats.lowRisk == stats.total
  {
    var ds := report.devices;
    var active, inactive, maintenance, high, low := 0, 0, 0, 0, 0;
    var i := 0;
    while i < |ds|
      invariant 0 <= i <= |ds|
      invariant active == CountStatus(ds[..i], Active)
      invariant inactive == CountStatus(ds[..i], Inactive)
      invariant maintenance == CountStatus(ds[..i], UnderMaintenance)
      invariant high == CountHighRisk(ds[..i])
      invariant low == CountLowRisk(ds[..i])
    {
      var d := ds[i];
      CountsExtend(ds, i);
      active := active + (if d.status == Active then 1 else 0);
      inactive := inactive + (if d.status == Inactive then 1 else 0);
      maintenance := maintenance + (if d.status == UnderMaintenance then 1 else 0);
      high := high + (if d.riskLevel >= HighRiskThreshold then 1 else 0);
      low := low + (if d.riskLevel < HighRiskThreshold then 1 else 0);
      i := i + 1;
    }
    assert ds[..i] == ds;
    StatusPartition(ds);
    RiskPartition(ds);
    stats := Statistics(|ds|, active, inactive, maintenance, high, low);
  }

  /** Risk levels 5, 4, 6, 2, 5 give three high-risk and two low-risk devices. */
  lemma RiskBandExample(ds: seq<Device>)
    requires |ds| == 5
    requires ds[0].riskLevel == 5 && ds[1].riskLevel == 4 && ds[2].riskLevel == 6
    requires ds[3].riskLevel == 2 && ds[4].riskLevel == 5
    ensures CountHighRisk(ds) == 3 && CountLowRisk(ds) == 2
  {
    assert ds[..4][..3] == ds[..3];
    assert ds[..3][..2] == ds[..2];
    assert ds[..2][..1] == ds[..1];
    assert ds[..1][..0] == [];
    assert CountHighRisk(ds[..1]) == 1 && CountLowRisk(ds[..1]) == 0;
    assert CountHighRisk(ds[..2]) == 1 && CountLowRisk(ds[..2]) == 1;
    assert CountHighRisk(ds[..3]) == 2 && CountLowRisk(ds[..3]) == 1;
    assert CountHighRisk(ds[..4]) == 2 && CountLowRisk(ds[..4]) == 2;
  }

  // ---------------------------------------------------------------------------
  // Approval by number

  /** Number of approved recommendations in `recs`. */
  function CountApproved(recs: seq<Recommendation>): (n: nat)
    ensures n <= |recs|
  {
    if |recs| == 0 then 0
    else CountApproved(recs[..|recs| - 1]) + (if recs[|recs| - 1].approved then 1 else 0)
  }

  /**
   Approves the recommendation the user numbered `number`, counting from 1.
   A number outside 1..|recommendations| is reported and changes nothing;
   otherwise only that one entry changes, and it becomes approved.
   */
  function ApproveByNumber(report: DeviceReport, number: int): (result: ApprovalResult)
    ensures result.status == RecommendationApproved <==> 1 <= number <= |report.recommendations|
    ensures result.status == InvalidRecommendationIndex ==> result.report == report
    ensures result.report.devices == report.devices
    ensures |result.report.recommendations| == |report.recommendations|
    ensures result.status == RecommendationApproved ==>
      result.report.recommendations[number - 1] == Approve(report.recommendations[number - 1])
    ensures forall j :: 0 <= j < |report.recommendations| && j != number - 1 ==>
      result.report.recommendations[j] == report.recommendations[j]
  {
    var index := number - 1;
    if 0 <= index < |report.recommendations| then
      var recs := report.recommendations[index := Approve(report.recommendations[index])];
      ApprovalResult(report.(recommendations := recs), RecommendationApproved)
    else
      ApprovalResult(report, InvalidRecommendationIndex)
  }

  /** Replacing one entry changes the approved count by that entry's difference. */
  lemma {:induction false} CountApprovedUpdate(recs: seq<Recommendation>, k: int, rec: Recommendation)
    requires 0 <= k < |recs|
    ensures CountApproved(recs[k := rec])
         == CountApproved(recs) - (if recs[k].approved then 1 else 0) + (if rec.approved then 1 else 0)
  {
    var last := |recs| - 1;
    if k < last {
      CountApprovedUpdate(recs[..last], k, rec);
      assert recs[k := rec][..last] == recs[..last][k := rec];
    } else {
      assert recs[k := rec][..last] == recs[..last];
    }
  }

  /**
   Approving a pending recommendation by a valid number raises the approved
   count by exactly one; approving an already approved one leaves it as is.
   */
  lemma ApproveByNumberCount(report: DeviceReport, number: int)
    requires 1 <= number <= |report.recommendations|
    ensures CountApproved(ApproveByNumber(report, number).report.recommendations)
         == CountApproved(report.recommendations)
            + (if report.recommendations[number - 1].approved then 0 else 1)
  {
    var recs := report.recommendations;
    CountApprovedUpdate(recs, number - 1, Approve(recs[number - 1]));
  }

  /** Approving the same number twice is the same as approving it once. */
  lemma ApproveByNumberIdempotent(report: DeviceReport, number: int)
    ensures ApproveByNumber(ApproveByNumber(report, number).report, number).report
         == ApproveByNumber(report, number).report
  {
  }

  /**
   An approval persists: appending devices or recommendations afterwards
   leaves the approved entry approved.
   */
  lemma ApprovalPersists(report: DeviceReport, number: int, device: Device, rec: Recommendation)
    requires 1 <= number <= |report.recommendations|
    ensures var approved := ApproveByNumber(report, number).report;
      AddRecommendation(AddDevice(approved, device), rec).recommendations[number - 1].approved
  {
  }

  /** Number 10 on a list of two pending recommendations is refused and approves nothing. */
  lemma OutOfRangeExample(report: DeviceReport)
    requires |report.recommendations| == 2
    requires !report.recommendations[0].approved && !report.recommendations[1].approved
    ensures ApproveByNumber(report, 10).status == InvalidRecommendationIndex
    ensures !ApproveByNumber(report, 10).report.recommendations[0].approved
    ensures !ApproveByNumber(report, 10).report.recommendations[1].approved
  {
  }
}
