/** Threshold-crossing alerts: each scan of a table raises one alert for a key that enters
 *  the alarming state (department risk "critical", employee stress above 40) and re-arms a
 *  key that leaves it. The module's two alerted sets are the fields of `Monitor`. */
module RiskMonitor {
  import opened Wrappers
  import opened Store
  import PyText
  import opened WebsocketAlerts

  /** An alerted key: the item's key attribute, None when the item lacks it. */
  type Key = Option<Value>

  /** What one scanned item means for the scan: the processing raises, the item is skipped, or
   *  the item's key is in the alarming state (`high`) or not, with the alert it would raise. */
  datatype Signal = Raise | Skip | Level(id: Key, high: bool, alert: Message)

  /** `dept.get('overall_risk', '').lower()`; None where `.lower()` raises (a number). */
  function OverallRisk(dept: Item): Option<string>
  {
    match Get(dept, "overall_risk")
    case None => Some("")
    case Some(S(s)) => Some(PyText.Lower(s))
    case Some(N(_)) => None
  }

  function DepartmentAlert(dept: Item, risk: string, timestamp: string): Message
  {
    DepartmentCritical(Get(dept, "department_id"), Get(dept, "department_name"), risk,
                       Get(dept, "engagement_score").GetOr(N(0.0)), timestamp)
  }

  function DepartmentSignal(dept: Item, timestamp: string): Signal
  {
    match OverallRisk(dept)
    case None => Raise
    case Some(risk) => Level(Get(dept, "department_id"), risk == "critical", DepartmentAlert(dept, risk, timestamp))
  }

  function EmployeeAlert(emp: Item, stress: real, timestamp: string): Message
  {
    EmployeeStress(Get(emp, "Employee_ID"), Get(emp, "name").GetOr(S("Unknown")),
                   Get(emp, "division").GetOr(S("Unknown")), Get(emp, "position").GetOr(S("Unknown")),
                   stress, Get(emp, "engagement_rate").GetOr(N(0.0)),
                   Get(emp, "attrition_rate").GetOr(N(0.0)), timestamp)
  }

  /** An employee without `stress_rate` is skipped; a text value fails the comparison with 40. */
  function EmployeeSignal(emp: Item, timestamp: string): Signal
  {
    match Get(emp, "stress_rate")
    case None => Skip
    case Some(S(_)) => Raise
    case Some(N(r)) => Level(Get(emp, "Employee_ID"), r > 40.0, EmployeeAlert(emp, r, timestamp))
  }

  function DepartmentSignals(items: seq<Item>, timestamp: string): (r: seq<Signal>)
    ensures |r| == |items|
    ensures forall i :: 0 <= i < |items| ==> r[i] == DepartmentSignal(items[i], timestamp)
  {
    seq(|items|, i requires 0 <= i < |items| => DepartmentSignal(items[i], timestamp))
  }

  function EmployeeSignals(items: seq<Item>, timestamp: string): (r: seq<Signal>)
    ensures |r| == |items|
    ensures forall i :: 0 <= i < |items| ==> r[i] == EmployeeSignal(items[i], timestamp)
  {
    seq(|items|, i requires 0 <= i < |items| => EmployeeSignal(items[i], timestamp))
  }

  /** The items a scan hands to the loop: none when reading the table failed. */
  function ScannedItems(scan: Scan): seq<Item>
  {
    match scan
    case ScanFailed => []
    case Items(items) => items
  }

  /** The alerted set, the alerts raised so far and whether processing stopped on an error. */
  datatype ScanOutcome = ScanOutcome(alerted: set<Key>, alerts: seq<Message>, failed: bool)

  /** The loop over the scanned items, from the alerted set `alerted`: alert and remember a key
   *  entering the alarming state, forget a key leaving it; processing stops at the first error
   *  and keeps what it did before it. */
  function ScanSignals(alerted: set<Key>, sigs: seq<Signal>): ScanOutcome
  {
    if sigs == [] then ScanOutcome(alerted, [], false)
    else
      var before := ScanSignals(alerted, sigs[..|sigs| - 1]);
      if before.failed then before
      else match sigs[|sigs| - 1]
        case Raise => ScanOutcome(before.alerted, before.alerts, true)
        case Skip => before
        case Level(id, high, alert) =>
          if high && id !in before.alerted then ScanOutcome(before.alerted + {id}, before.alerts + [alert], false)
          else if !high && id in before.alerted then ScanOutcome(before.alerted - {id}, before.alerts, false)
          else before
  }

  /** No two items of a snapshot carry the same key (the table's key attribute is unique). */
  ghost predicate DistinctKeys(sigs: seq<Signal>)
  {
    forall i, j :: 0 <= i < j < |sigs| && sigs[i].Level? && sigs[j].Level? ==> sigs[i].id != sigs[j].id
  }

  /** The alerted set agrees with every item that the scan processed. */
  ghost predicate Agrees(alerted: set<Key>, sigs: seq<Signal>)
  {
    forall j :: 0 <= j < |sigs| && sigs[j].Level? ==> (sigs[j].id in alerted <==> sigs[j].high)
  }

  predicate RaiseFree(sigs: seq<Signal>)
  {
    forall j :: 0 <= j < |sigs| ==> !sigs[j].Raise?
  }

  /** A scan without errors leaves the alerted set in agreement with the snapshot: a key is
   *  remembered exactly when its item is in the alarming state. */
  lemma {:induction false} ScanAgrees(alerted: set<Key>, sigs: seq<Signal>)
    requires DistinctKeys(sigs) && RaiseFree(sigs)
    ensures !ScanSignals(alerted, sigs).failed
    ensures Agrees(ScanSignals(alerted, sigs).alerted, sigs)
  {
    if sigs != [] {
      var init := sigs[..|sigs| - 1];
      assert DistinctKeys(init) && RaiseFree(init);
      ScanAgrees(alerted, init);
      var before := ScanSignals(alerted, init);
      var after := ScanSignals(alerted, sigs);
      var last := sigs[|sigs| - 1];
      forall j | 0 <= j < |sigs| && sigs[j].Level? ensures (sigs[j].id in after.alerted <==> sigs[j].high) {
        if j < |sigs| - 1 {
          assert init[j] == sigs[j];
          if last.Level? { assert sigs[j].id != last.id; }
        }
      }
    }
  }

  /** Scanning items the alerted set already agrees with raises nothing and changes nothing. */
  lemma {:induction false} ScanOfAgreeingIsQuiet(alerted: set<Key>, sigs: seq<Signal>)
    requires RaiseFree(sigs) && Agrees(alerted, sigs)
    ensures ScanSignals(alerted, sigs) == ScanOutcome(alerted, [], false)
  {
    if sigs != [] {
      var init := sigs[..|sigs| - 1];
      assert RaiseFree(init) && Agrees(alerted, init);
      ScanOfAgreeingIsQuiet(alerted, init);
    }
  }

  /** Re-scanning an unchanged snapshot after an error-free scan raises no alert and leaves the
   *  alerted set as it was: an alert is raised once per crossing, not once per scan. */
  lemma RescanIsQuiet(alerted: set<Key>, sigs: seq<Signal>)
    requires DistinctKeys(sigs) && RaiseFree(sigs)
    ensures var first := ScanSignals(alerted, sigs);
      ScanSignals(first.alerted, sigs) == ScanOutcome(first.alerted, [], false)
  {
    ScanAgrees(alerted, sigs);
    ScanOfAgreeingIsQuiet(ScanSignals(alerted, sigs).alerted, sigs);
  }

  /** The index of the first item whose processing raises, or `|sigs|`. */
  function FirstRaise(sigs: seq<Signal>): (k: nat)
    ensures k <= |sigs| && RaiseFree(sigs[..k])
    ensures k < |sigs| ==> sigs[k].Raise?
  {
    if sigs == [] then 0
    else
      var init := sigs[..|sigs| - 1];
      var k := FirstRaise(init);
      assert init[..k] == sigs[..k];
      if k < |init| then k
      else if sigs[|sigs| - 1].Raise? then |init|
      else (assert init == sigs[..|init|]; |sigs|)
  }

  /** An error stops the loop where it happens: the outcome is that of the items before it, and
   *  the scan reports the error exactly when some item raises. */
  lemma {:induction false} ScanStopsAtError(alerted: set<Key>, sigs: seq<Signal>)
    ensures var k := FirstRaise(sigs);
      var prefix := ScanSignals(alerted, sigs[..k]);
      ScanSignals(alerted, sigs) == ScanOutcome(prefix.alerted, prefix.alerts, k < |sigs|)
      && !prefix.failed
  {
    var k := FirstRaise(sigs);
    RaiseFreeNeverFails(alerted, sigs[..k]);
    if sigs != [] {
      var n := |sigs| - 1;
      var init := sigs[..n];
      if k <= n {
        ScanStopsAtError(alerted, init);
        assert init[..k] == sigs[..k];
      } else {
        assert sigs[..k] == sigs;
      }
    }
  }

  lemma {:induction false} RaiseFreeNeverFails(alerted: set<Key>, sigs: seq<Signal>)
    requires RaiseFree(sigs)
    ensures !ScanSignals(alerted, sigs).failed
  {
    if sigs != [] {
      assert RaiseFree(sigs[..|sigs| - 1]);
      RaiseFreeNeverFails(alerted, sigs[..|sigs| - 1]);
    }
  }

  /** Keys of items no scan step touched keep their alerted status. */
  lemma {:induction false} ScanFrame(alerted: set<Key>, sigs: seq<Signal>, key: Key)
    requires forall j :: 0 <= j < |sigs| && sigs[j].Level? ==> sigs[j].id != key
    ensures key in ScanSignals(alerted, sigs).alerted <==> key in alerted
  {
    if sigs != [] {
      ScanFrame(alerted, sigs[..|sigs| - 1], key);
    }
  }

  /** A scan raises at most one alert per item, and each alert's key is new: it was not in the
   *  alerted set when the scan started, or it was forgotten earlier in the same scan. */
  lemma {:induction false} AlertsBounded(alerted: set<Key>, sigs: seq<Signal>)
    ensures |ScanSignals(alerted, sigs).alerts| <= |sigs|
    ensures ScanSignals(alerted, sigs).alerted <= alerted + set j | 0 <= j < |sigs| && sigs[j].Level? :: sigs[j].id
  {
    if sigs != [] {
      var init := sigs[..|sigs| - 1];
      AlertsBounded(alerted, init);
      assert (set j | 0 <= j < |init| && init[j].Level? :: init[j].id)
        <= (set j | 0 <= j < |sigs| && sigs[j].Level? :: sigs[j].id);
    }
  }

  /** The broadcast loop of both checks: `broadcast` for each alert, in order. */
  method BroadcastAlerts(manager: ConnectionManager, alerts: seq<Message>, failing: seq<set<WebSocket>>)
    modifies manager
    ensures manager.connections == BroadcastAll(old(manager.connections), alerts, failing).0
    ensures manager.sent == old(manager.sent) + BroadcastAll(old(manager.connections), alerts, failing).1
  {
    var k := 0;
    while k < |alerts|
      invariant 0 <= k <= |alerts|
      invariant manager.connections == BroadcastAll(old(manager.connections), alerts[..k], failing).0
      invariant manager.sent == old(manager.sent) + BroadcastAll(old(manager.connections), alerts[..k], failing).1
    {
      assert alerts[..k + 1][..k] == alerts[..k];
      manager.Broadcast(alerts[k], FailingAt(failing, k));
      k := k + 1;
    }
    assert alerts[..k] == alerts;
  }

  /** The module state of `risk_monitor.py`: the keys already alerted on. */
  class Monitor {
    var alertedDepartments: set<Key>
    var alertedEmployees: set<Key>

    constructor()
      ensures alertedDepartments == {} && alertedEmployees == {}
    {
      alertedDepartments := {};
      alertedEmployees := {};
    }

    /** `check_department_risks`: one pass over the Departments snapshot, then one broadcast per
     *  alert; a read failure or an error while processing an item ends the pass early. */
    method CheckDepartmentRisks(scan: Scan, manager: ConnectionManager, failing: seq<set<WebSocket>>,
                                timestamp: string) returns (alerts: seq<Message>)
      modifies this, manager
      ensures var r := ScanSignals(old(alertedDepartments), DepartmentSignals(ScannedItems(scan), timestamp));
        alerts == r.alerts && alertedDepartments == r.alerted
      ensures alertedEmployees == old(alertedEmployees)
      ensures manager.connections == BroadcastAll(old(manager.connections), alerts, failing).0
      ensures manager.sent == old(manager.sent) + BroadcastAll(old(manager.connections), alerts, failing).1
    {
      var items := ScannedItems(scan);
      ghost var sigs := DepartmentSignals(items, timestamp);
      alerts := [];
      var i := 0;
      while i < |items|
        invariant 0 <= i <= |items|
        invariant alertedEmployees == old(alertedEmployees)
        invariant ScanSignals(old(alertedDepartments), sigs[..i]) == ScanOutcome(alertedDepartments, alerts, false)
        invariant manager.connections == old(manager.connections) && manager.sent == old(manager.sent)
      {
        assert sigs[..i + 1][..i] == sigs[..i];
        var dept := items[i];
        var deptId := Get(dept, "department_id");
        var risk := OverallRisk(dept);
        if risk.None? {
          // `.lower()` raised: the except clause ends the loop.
          StopIsFinal(old(alertedDepartments), sigs, i + 1);
          break;
        }
        var overallRisk := risk.value;
        if overallRisk == "critical" && deptId !in alertedDepartments {
          alerts := alerts + [DepartmentAlert(dept, overallRisk, timestamp)];
          alertedDepartments := alertedDepartments + {deptId};
        } else if overallRisk != "critical" && deptId in alertedDepartments {
          alertedDepartments := alertedDepartments - {deptId};
        }
        i := i + 1;
      }
      assert i == |items| ==> sigs[..i] == sigs;
      BroadcastAlerts(manager, alerts, failing);
    }

    /** `check_employee_stress`: as `CheckDepartmentRisks` on the Employees snapshot, with
     *  stress above 40 as the alarming state and items without a stress rate skipped. */
    method CheckEmployeeStress(scan: Scan, manager: ConnectionManager, failing: seq<set<WebSocket>>,
                               timestamp: string) returns (alerts: seq<Message>)
      modifies this, manager
      ensures var r := ScanSignals(old(alertedEmployees), EmployeeSignals(ScannedItems(scan), timestamp));
        alerts == r.alerts && alertedEmployees == r.alerted
      ensures alertedDepartments == old(alertedDepartments)
      ensures manager.connections == BroadcastAll(old(manager.connections), alerts, failing).0
      ensures manager.sent == old(manager.sent) + BroadcastAll(old(manager.connections), alerts, failing).1
    {
      var items := ScannedItems(scan);
      ghost var sigs := EmployeeSignals(items, timestamp);
      alerts := [];
      var i := 0;
      while i < |items|
        invariant 0 <= i <= |items|
        invariant alertedDepartments == old(alertedDepartments)
        invariant ScanSignals(old(alertedEmployees), sigs[..i]) == ScanOutcome(alertedEmployees, alerts, false)
        invariant manager.connections == old(manager.connections) && manager.sent == old(manager.sent)
      {
        assert sigs[..i + 1][..i] == sigs[..i];
        var emp := items[i];
        var empId := Get(emp, "Employee_ID");
        var stressRate := Get(emp, "stress_rate");
        if stressRate.None? {
          i := i + 1;
          continue;
        }
        if stressRate.value.S? {
          // comparing a string with 40 raised: the except clause ends the loop.
          StopIsFinal(old(alertedEmployees), sigs, i + 1);
          break;
        }
        var stress := stressRate.value.n;
        if stress > 40.0 && empId !in alertedEmployees {
          alerts := alerts + [EmployeeAlert(emp, stress, timestamp)];
          alertedEmployees := alertedEmployees + {empId};
        } else if stress <= 40.0 && empId in alertedEmployees {
          alertedEmployees := alertedEmployees - {empId};
        }
        i := i + 1;
      }
      assert i == |items| ==> sigs[..i] == sigs;
      BroadcastAlerts(manager, alerts, failing);
    }

    /** `reset_alert_state`: both sets become empty, so every key may alert again. */
    method ResetAlertState()
      modifies this
      ensures alertedDepartments == {} && alertedEmployees == {}
    {
      alertedDepartments := {};
      alertedEmployees := {};
    }
  }

  /** Once a prefix of the scan has failed, the outcome of the whole scan is that of the prefix. */
  lemma {:induction false} StopIsFinal(alerted: set<Key>, sigs: seq<Signal>, n: nat)
    requires n <= |sigs| && ScanSignals(alerted, sigs[..n]).failed
    ensures ScanSignals(alerted, sigs) == ScanSignals(alerted, sigs[..n])
    decreases |sigs| - n
  {
    if n < |sigs| {
      assert sigs[..n + 1][..n] == sigs[..n];
      StopIsFinal(alerted, sigs, n + 1);
    } else {
      assert sigs[..n] == sigs;
    }
  }

  /** `detect_and_notify`: departments first, then employees; the total is the number of
   *  alerts of both. */
  method DetectAndNotify(monitor: Monitor, manager: ConnectionManager,
                         departments: Scan, employees: Scan,
                         departmentFailing: seq<set<WebSocket>>, employeeFailing: seq<set<WebSocket>>,
                         timestamp: string)
    returns (departmentAlerts: seq<Message>, employeeAlerts: seq<Message>, total: nat)
    modifies monitor, manager
    ensures departmentAlerts == ScanSignals(old(monitor.alertedDepartments), DepartmentSignals(ScannedItems(departments), timestamp)).alerts
    ensures employeeAlerts == ScanSignals(old(monitor.alertedEmployees), EmployeeSignals(ScannedItems(employees), timestamp)).alerts
    ensures total == |departmentAlerts| + |employeeAlerts|
    ensures var afterDepartments := BroadcastAll(old(manager.connections), departmentAlerts, departmentFailing);
      var afterEmployees := BroadcastAll(afterDepartments.0, employeeAlerts, employeeFailing);
      manager.connections == afterEmployees.0 && manager.sent == old(manager.sent) + afterDepartments.1 + afterEmployees.1
  {
    departmentAlerts := monitor.CheckDepartmentRisks(departments, manager, departmentFailing, timestamp);
    employeeAlerts := monitor.CheckEmployeeStress(employees, manager, employeeFailing, timestamp);
    total := |departmentAlerts| + |employeeAlerts|;
  }

  function StressItem(id: string, stress: real): Item
  {
    map["Employee_ID" := S(id), "stress_rate" := N(stress)]
  }

  /** One employee over four scans with stress 65.5, 65.5, 35 and 50: an alert on the first
   *  scan, none on the repeat, none while below the threshold (the key is forgotten), and a
   *  new alert when the stress rises above 40 again. */
  lemma StressCrossingScenario(t: string)
    ensures var s1 := ScanSignals({}, EmployeeSignals([StressItem("EMP001", 65.5)], t));
      var s2 := ScanSignals(s1.alerted, EmployeeSignals([StressItem("EMP001", 65.5)], t));
      var s3 := ScanSignals(s2.alerted, EmployeeSignals([StressItem("EMP001", 35.0)], t));
      var s4 := ScanSignals(s3.alerted, EmployeeSignals([StressItem("EMP001", 50.0)], t));
      |s1.alerts| == 1 && s2.alerts == [] && s3.alerts == [] && s3.alerted == {} && |s4.alerts| == 1
      && s4.alerted == {Some(S("EMP001"))}
  {
    var one := [StressItem("EMP001", 65.5)];
    assert EmployeeSignals(one, t)[..0] == [];
    assert EmployeeSignals([StressItem("EMP001", 35.0)], t)[..0] == [];
    assert EmployeeSignals([StressItem("EMP001", 50.0)], t)[..0] == [];
  }

  /** One employee item: without a stress rate it is skipped; a text stress rate raises; a
   *  number alerts exactly when it is above 40 and the key is not yet alerted, and the key is
   *  then alerted exactly when the stress is above 40. */
  lemma EmployeeStep(alerted: set<Key>, emp: Item, t: string)
    ensures var r := ScanSignals(alerted, EmployeeSignals([emp], t));
      var id := Get(emp, "Employee_ID");
      match Get(emp, "stress_rate")
      case None => r == ScanOutcome(alerted, [], false)
      case Some(S(_)) => r == ScanOutcome(alerted, [], true)
      case Some(N(x)) =>
        !r.failed
        && (r.alerts != [] <==> x > 40.0 && id !in alerted)
        && (r.alerts != [] ==> r.alerts == [EmployeeAlert(emp, x, t)])
        && r.alerted == (if x > 40.0 then alerted + {id} else alerted - {id})
  {
    assert EmployeeSignals([emp], t)[..0] == [];
  }

  /** One department item: a risk that is not text raises; otherwise it alerts exactly when the
   *  lower-cased risk is "critical" and the key is not yet alerted, and the key is then alerted
   *  exactly when the risk is "critical". */
  lemma DepartmentStep(alerted: set<Key>, dept: Item, t: string)
    ensures var r := ScanSignals(alerted, DepartmentSignals([dept], t));
      var id := Get(dept, "department_id");
      match OverallRisk(dept)
      case None => r == ScanOutcome(alerted, [], true)
      case Some(risk) =>
        !r.failed
        && (r.alerts != [] <==> risk == "critical" && id !in alerted)
        && (r.alerts != [] ==> r.alerts == [DepartmentAlert(dept, risk, t)])
        && r.alerted == (if risk == "critical" then alerted + {id} else alerted - {id})
  {
    assert DepartmentSignals([dept], t)[..0] == [];
  }
}
