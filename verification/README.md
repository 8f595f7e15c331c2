# IoT device risk management — Dafny model

A model of the rule-bearing core of a small IoT device risk manager
(`IoT.py`). It has three parts:

- **Risk scoring** (module `Devices`, `devices.dfy`). A static table gives a
  base risk for each (device type, firmware version) pair. Any missing pair
  scores 0, and so does any unknown type. A device's risk level is fixed
  when the device is created. It is the base risk, plus 2 when more than 180
  days separate the device's last-updated timestamp from the moment of
  scoring, plus a residual in [0, 2].
- **Role-based access control** (module `Access`, `access.dfy`). A registry
  maps each username to a user with a role (Viewer, Manager, Admin) and an
  active flag. `CheckAccess` always denies an inactive user. For an active
  user it consults a flat action→roles table. The table is not a hierarchy:
  Admin may `add_device` but may not `approve_recommendation`.
- **The device report** (module `Report`, `report.dfy`). It holds an
  append-only list of devices and an append-only list of recommendations.
  It computes statistics: counts by status, and counts above and below the
  high-risk threshold 5. It also approves or rejects recommendations,
  including approval by the 1-based number a user types in.

The wall clock and the random generator of IoT.py become parameters.
`ageDays` is the whole number of days between the device's last-updated
timestamp and the moment of scoring. IoT.py sets that timestamp in the
constructor and scores the device immediately afterwards (IoT.py:47-48,
IoT.py:55), so in IoT.py the value is 0 (or -1 if the clock steps back).
`residual` is the value the random draw produced, with `0 <= residual <= 2`. All data are immutable datatypes,
and every operation is a pure function except `GenerateStatistics`, which
is a method with a counting loop.

## Model

| member | source | states |
|---|---|---|
| Devices.BaseRisk | IoT.py:52 | for a pair the table lists, the base risk is that row's value; every base risk lies in [0, 7] |
| Devices.TableRowsAgree | IoT.py:8-13 | each of the 12 listed (type, version, risk) rows is exactly what the base-risk lookup returns |
| Devices.UnlistedPairScoresZero | IoT.py:52 | a pair absent from the table (an unknown type, or an unknown version of a known type) has base risk 0 |
| Devices.CalculateRisk | IoT.py:50-62 | the risk lies between base and base + 4; it is at most base + 2 when the age is 180 days or less and at least base + 2 when it is more; it is never negative |
| Devices.NewDevice | IoT.py:42-48 | a new device keeps its id, type, version and status, and stores the risk scored at creation |
| Devices.ResidualDeterminedByRisk | IoT.py:60 | two residuals that give the same risk for the same device and age are equal, so the residual can be read back from the score |
| Devices.RiskMonotoneInResidual | IoT.py:60 | a larger residual never gives a lower risk |
| Devices.ZeroResidualScore | IoT.py:52-62 | with residual 0 the risk is the base risk plus 2 when the age exceeds 180 days |
| Devices.FreshDeviceHasNoAgePenalty | IoT.py:47-55 | age is measured from the device's own creation time, so at creation (age 0 or less) the stored risk is base risk plus residual and the age penalty never applies |
| Devices.SmartLightExample | IoT.py:9 | smart_light firmware 1.1, fresh, with residual 0, scores 3 |
| Devices.UnknownTypeExample | IoT.py:52 | type "drone" has base risk 0 for every version, and with residual 1 scores 1 |
| Access.NewAccessControl | IoT.py:123-124 | a new registry has no users |
| Access.AddUser | IoT.py:126-127 | afterwards the name maps to a user with that name, role and flag; the key set gains only that name; every other entry is unchanged; an existing entry is overwritten |
| Access.CheckAccess | IoT.py:129-143 | access is allowed if and only if the user is active and the (action, role) pair is one of the seven grants of the permission table |
| Access.InactiveUserDenied | IoT.py:131-133 | an inactive user is denied every action, whatever the role |
| Access.UnknownActionDenied | IoT.py:143 | an action other than the four named ones is denied to everybody |
| Access.PermissionTable | IoT.py:135-142 | for an active user, view_report is allowed to all roles, modify_report to Manager and Admin, add_device to Admin only, approve_recommendation to Manager only |
| Access.RolesAreNotNested | IoT.py:139-142 | Admin passes add_device but fails approve_recommendation; Manager passes approve_recommendation and modify_report but fails add_device |
| Access.RegisteredUserAccess | IoT.py:126-143 | the user just registered under a name is allowed an action exactly when registered active with a role the table grants for it |
| Report.NewRecommendation | IoT.py:70-72 | a new recommendation keeps its text and starts pending |
| Report.Approve | IoT.py:74-75 | approving makes the recommendation approved and keeps its text |
| Report.Reject | IoT.py:77-78 | rejecting makes the recommendation pending and keeps its text |
| Report.ApproveRejectIdempotent | IoT.py:74-78 | approving twice equals approving once; rejecting twice equals rejecting once |
| Report.RejectUndoesApprove | IoT.py:74-78 | rejecting an approved new recommendation gives back the pending one; approving again restores the approval |
| Report.NewReport | IoT.py:86-88 | a new report has no devices and no recommendations |
| Report.AddDevice | IoT.py:90-91 | the device list grows by one with the new device last; earlier devices and the recommendation list are unchanged |
| Report.AddRecommendation | IoT.py:97-98 | the recommendation list grows by one with the new one last; earlier ones and the device list are unchanged |
| Report.DuplicateDevicesKept | IoT.py:90-91 | adding the same device twice keeps both copies; device ids are not required to be unique |
| Report.CountStatus | IoT.py:106-108 | the count of devices with a given status never exceeds the total number of devices |
| Report.CountHighRisk | IoT.py:110 | the high-risk count never exceeds the total number of devices |
| Report.CountLowRisk | IoT.py:111 | the low-risk count never exceeds the total number of devices |
| Report.CountStatusIsPositionCount | IoT.py:106-108 | the count of devices with a given status equals the number of list positions holding such a device, as the length of the filtered list does |
| Report.CountHighRiskIsPositionCount | IoT.py:110 | the high-risk count equals the number of list positions holding a device with risk level at least 5 |
| Report.CountLowRiskIsPositionCount | IoT.py:111 | the low-risk count equals the number of list positions holding a device with risk level below 5 |
| Report.StatusPartition | IoT.py:105-108 | active + inactive + under-maintenance counts add up to the total number of devices |
| Report.RiskPartition | IoT.py:110-111 | high-risk + low-risk counts add up to the total number of devices |
| Report.HighRiskCountsAll | IoT.py:110 | the high-risk count equals the number of devices if and only if every device has risk level at least 5 |
| Report.GenerateStatistics | IoT.py:103-111 | the one-pass counts agree with the per-status and per-band counts, the three status counts sum to the total, and high + low equals the total |
| Report.RiskBandExample | IoT.py:110-111 | five devices with risk levels 5, 4, 6, 2, 5 give three high-risk and two low-risk devices |
| Report.ApproveByNumber | IoT.py:206-211 | the approval succeeds if and only if 1 <= number <= the list length; on failure the report is unchanged; on success only entry number - 1 changes, becoming approved with its text kept; devices are never touched |
| Report.ApproveByNumberCount | IoT.py:206-208 | a valid approval raises the approved count by one when the entry was pending and leaves it unchanged otherwise |
| Report.ApproveByNumberIdempotent | IoT.py:206-208 | approving the same number twice gives the same report as approving it once |
| Report.ApprovalPersists | IoT.py:206-208 | after an approval by number, appending a device and a recommendation leaves that entry approved |
| Report.OutOfRangeExample | IoT.py:207-211 | number 10 on a list of two pending recommendations is refused and leaves both pending |

## Left out

- The interactive session (IoT.py:147-217) is console plumbing and is not
  modelled. This covers the prompts, `input`/`print`, and parsing role and
  status strings with fallback defaults. The one part kept is the
  bounds rule of the approval loop, modelled by `Report.ApproveByNumber`.
- In that session, line 187 opens the approval loop to Manager *and* Admin
  by checking the role directly. It does not call `check_access` for
  `approve_recommendation`, which denies Admin. In practice that loop is
  never reached: line 154 tests the lower-cased role text against the
  upper-case member names of `Role`, so every user becomes a Viewer, and
  line 170 does the same with statuses, so every device becomes Active.
  The model covers only the permission table itself.
- The text output is not modelled: the `__str__` methods, `generate_report`,
  `view_recommendations`, and the text layout of `generate_statistics`.
  The statistics are modelled as a record of counts.
- The clock (`datetime.now()`) and the random generator
  (`random.randint(0, 2)`) become the parameters `ageDays` and `residual`.
  The creation timestamp is not stored in `Device`.
- Devices.NewDevice: leaves `ageDays` free, so the model can build a device
  that carries the +2 age penalty. IoT.py never does: it scores at
  construction with the device's own fresh timestamp, so its age is 0
  (or -1 if the clock steps back). `Devices.FreshDeviceHasNoAgePenalty`
  states what follows for that case.
- Report.ApproveByNumber: Python objects are modelled as values, so
  aliasing is not modelled. `Recommendation.approve` changes the object in
  place (IoT.py:75, IoT.py:208), and `add_recommendation` accepts any
  object, including one already in the list; appending the same object
  twice and approving number 1 would flip both positions in Python. The
  model changes only the numbered position. The session creates a fresh
  object for every append (IoT.py:194-195), so this does not arise there.
- The console notice printed when an inactive user is denied is not
  modelled; only the denial is.
- `check_access` has no case for a missing user. An unregistered name
  gives `None` at IoT.py:178, and IoT.py:131 then raises on
  `user.is_active` instead of denying. The model checks access only for a
  real `User`.
- There is no rejection by number. IoT.py approves by number only
  (IoT.py:206-211); rejection exists only as `Recommendation.reject`,
  modelled by `Report.Reject` on a single recommendation.
- Default arguments (`is_active=True`, `status=ACTIVE`, `approved=False`)
  become explicit parameters. `NewRecommendation` gives the pending default.
- Python's `int` is unbounded, like Dafny's, so no overflow is modelled.
