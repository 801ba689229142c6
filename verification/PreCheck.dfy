/** The device pre-check: deterministic and fail-closed (apps/api/app/precheck.py). */
module PreCheck {

  const SUITE_VERSION := "2026.08"
  const MIN_BANDWIDTH_KBPS := 300

  datatype DeviceCheck = DeviceCheck(kind: string, status: string)

  datatype Report = Report(suiteVersion: string, devices: seq<DeviceCheck>, connection: string, bandwidthKbps: nat)

  datatype Failure =
    | StaleSuite(version: string)
    | InvalidStatus(index: nat, device: DeviceCheck)
    | DeviceMissing(kind: string)
    | DeviceNotOk(kind: string, statuses: seq<string>)
    | InvalidConnection(value: string)
    | PoorConnection(value: string)
    | LowBandwidth(kbps: nat)

  predicate AllowedStatus(status: string) {
    status == "ok" || status == "degraded" || status == "failed" || status == "missing"
  }

  function RequiredKinds(): (kinds: seq<string>)
    ensures |kinds| == 3
  {
    ["camera", "microphone", "speaker"]
  }

  // ----- what a passing report is -----

  /** Some check of the kind was reported, and every one of them said exactly "ok". */
  ghost predicate DeviceOk(devices: seq<DeviceCheck>, kind: string) {
    && (exists d | d in devices :: d.kind == kind)
    && (forall d | d in devices && d.kind == kind :: d.status == "ok")
  }

  ghost predicate MeetsGate(report: Report) {
    && report.suiteVersion == SUITE_VERSION
    && (forall d | d in report.devices :: AllowedStatus(d.status))
    && (forall kind | kind in RequiredKinds() :: DeviceOk(report.devices, kind))
    && report.connection in {"good", "fair"}
    && report.bandwidthKbps >= MIN_BANDWIDTH_KBPS
  }

  // ----- the failures listed -----

  function BadStatuses(devices: seq<DeviceCheck>): (failures: seq<Failure>) {
    if devices == [] then []
    else
      var k := |devices| - 1;
      BadStatuses(devices[..k]) + if AllowedStatus(devices[k].status) then [] else [InvalidStatus(k, devices[k])]
  }

  /** The recognised statuses reported for one kind, in order. */
  function StatusesOf(devices: seq<DeviceCheck>, kind: string): (statuses: seq<string>) {
    if devices == [] then []
    else
      var k := |devices| - 1;
      StatusesOf(devices[..k], kind)
      + if devices[k].kind == kind && AllowedStatus(devices[k].status) then [devices[k].status] else []
  }

  function KindFailure(kind: string, statuses: seq<string>): (failures: seq<Failure>) {
    if statuses == [] then [DeviceMissing(kind)]
    else if exists s | s in statuses :: s != "ok" then [DeviceNotOk(kind, statuses)]
    else []
  }

  function KindFailures(devices: seq<DeviceCheck>, kinds: seq<string>): (failures: seq<Failure>) {
    if kinds == [] then []
    else
      var k := |kinds| - 1;
      KindFailures(devices, kinds[..k]) + KindFailure(kinds[k], StatusesOf(devices, kinds[k]))
  }

  function LinkFailure(report: Report): (failures: seq<Failure>) {
    if report.connection !in {"good", "fair", "poor", "unknown"} then [InvalidConnection(report.connection)]
    else if report.connection in {"poor", "unknown"} then [PoorConnection(report.connection)]
    else if report.bandwidthKbps < MIN_BANDWIDTH_KBPS then [LowBandwidth(report.bandwidthKbps)]
    else []
  }

  function Failures(report: Report): (failures: seq<Failure>) {
    if report.suiteVersion != SUITE_VERSION then [StaleSuite(report.suiteVersion)]
    else BadStatuses(report.devices) + KindFailures(report.devices, RequiredKinds()) + LinkFailure(report)
  }

  function Reported(byKind: map<string, seq<string>>, kind: string): (statuses: seq<string>) {
    if kind in byKind then byKind[kind] else []
  }

  method CollectStatuses(devices: seq<DeviceCheck>)
    returns (failures: seq<Failure>, byKind: map<string, seq<string>>)
    ensures failures == BadStatuses(devices)
    ensures forall kind :: Reported(byKind, kind) == StatusesOf(devices, kind)
  {
    failures, byKind := [], map[];
    for index := 0 to |devices|
      invariant failures == BadStatuses(devices[..index])
      invariant forall kind :: Reported(byKind, kind) == StatusesOf(devices[..index], kind)
    {
      var device := devices[index];
      assert devices[..index + 1][..index] == devices[..index];
      if !AllowedStatus(device.status) {
        failures := failures + [InvalidStatus(index, device)];
        continue;
      }
      byKind := byKind[device.kind := Reported(byKind, device.kind) + [device.status]];
    }
    assert devices[..|devices|] == devices;
  }

  method CheckRequired(devices: seq<DeviceCheck>, kinds: seq<string>, byKind: map<string, seq<string>>)
    returns (failures: seq<Failure>)
    requires forall kind :: Reported(byKind, kind) == StatusesOf(devices, kind)
    ensures failures == KindFailures(devices, kinds)
  {
    failures := [];
    for i := 0 to |kinds|
      invariant failures == KindFailures(devices, kinds[..i])
    {
      assert kinds[..i + 1][..i] == kinds[..i];
      failures := failures + KindFailure(kinds[i], Reported(byKind, kinds[i]));
    }
    assert kinds[..|kinds|] == kinds;
  }

  method Evaluate(report: Report) returns (passed: bool, failures: seq<Failure>)
    ensures failures == Failures(report)
    ensures passed <==> MeetsGate(report)
  {
    PassesIffGateMet(report);
    if report.suiteVersion != SUITE_VERSION {
      return false, [StaleSuite(report.suiteVersion)];
    }
    var bad, byKind := CollectStatuses(report.devices);
    var lacking := CheckRequired(report.devices, RequiredKinds(), byKind);
    failures := bad + lacking + LinkFailure(report);
    passed := failures == [];
  }

  // ----- the list is empty exactly for a passing report -----

  lemma {:induction false} NoBadStatuses(devices: seq<DeviceCheck>)
    ensures BadStatuses(devices) == [] <==> forall d | d in devices :: AllowedStatus(d.status)
  {
    if devices != [] {
      var k := |devices| - 1;
      NoBadStatuses(devices[..k]);
      assert devices == devices[..k] + [devices[k]];
    }
  }

  lemma {:induction false} StatusesReported(devices: seq<DeviceCheck>, kind: string)
    requires forall d | d in devices :: AllowedStatus(d.status)
    ensures forall s :: s in StatusesOf(devices, kind) <==> DeviceCheck(kind, s) in devices
  {
    if devices != [] {
      var k := |devices| - 1;
      StatusesReported(devices[..k], kind);
      assert devices == devices[..k] + [devices[k]];
    }
  }

  lemma KindPasses(devices: seq<DeviceCheck>, kind: string)
    requires forall d | d in devices :: AllowedStatus(d.status)
    ensures KindFailure(kind, StatusesOf(devices, kind)) == [] <==> DeviceOk(devices, kind)
  {
    var statuses := StatusesOf(devices, kind);
    StatusesReported(devices, kind);
    if DeviceOk(devices, kind) {
      var d :| d in devices && d.kind == kind;
      assert d.status in statuses;
    } else if statuses != [] {
      assert DeviceCheck(kind, statuses[0]) in devices;
      var d :| d in devices && d.kind == kind && d.status != "ok";
      assert d.status in statuses;
    }
  }

  lemma {:induction false} KindsPass(devices: seq<DeviceCheck>, kinds: seq<string>)
    requires forall d | d in devices :: AllowedStatus(d.status)
    ensures KindFailures(devices, kinds) == [] <==> forall kind | kind in kinds :: DeviceOk(devices, kind)
  {
    if kinds != [] {
      var k := |kinds| - 1;
      KindsPass(devices, kinds[..k]);
      KindPasses(devices, kinds[k]);
      assert kinds == kinds[..k] + [kinds[k]];
    }
  }

  /** Fail-closed in both directions: no failure is listed exactly when every requirement holds. */
  lemma PassesIffGateMet(report: Report)
    ensures Failures(report) == [] <==> MeetsGate(report)
  {
    NoBadStatuses(report.devices);
    if BadStatuses(report.devices) == [] {
      KindsPass(report.devices, RequiredKinds());
    }
  }

  // ----- the gate and the list in plain terms -----

  /** The gate, spelled out. */
  lemma GateIs(report: Report)
    ensures MeetsGate(report) <==>
            && report.suiteVersion == "2026.08"
            && (forall d | d in report.devices ::
                  d.status == "ok" || d.status == "degraded" || d.status == "failed" || d.status == "missing")
            && DeviceOk(report.devices, "camera") && DeviceOk(report.devices, "microphone")
            && DeviceOk(report.devices, "speaker")
            && (report.connection == "good" || report.connection == "fair")
            && report.bandwidthKbps >= 300
  {
    var kinds := RequiredKinds();
    assert kinds[0] == "camera" && kinds[1] == "microphone" && kinds[2] == "speaker";
    assert forall kind | kind in kinds :: kind == "camera" || kind == "microphone" || kind == "speaker";
    assert report.connection in {"good", "fair"} <==> report.connection == "good" || report.connection == "fair";
  }

  lemma {:induction false} BadStatusesAre(devices: seq<DeviceCheck>, f: Failure)
    ensures f in BadStatuses(devices) <==>
            f.InvalidStatus? && f.index < |devices| && f.device == devices[f.index] && !AllowedStatus(f.device.status)
  {
    if devices != [] {
      BadStatusesAre(devices[..|devices| - 1], f);
    }
  }

  lemma {:induction false} StatusesAre(devices: seq<DeviceCheck>, kind: string, s: string)
    ensures s in StatusesOf(devices, kind) <==> AllowedStatus(s) && DeviceCheck(kind, s) in devices
  {
    if devices != [] {
      var k := |devices| - 1;
      StatusesAre(devices[..k], kind, s);
      assert devices == devices[..k] + [devices[k]];
    }
  }

  /** What one kind contributes: missing where no recognised status was reported, not ok where one is not "ok". */
  lemma KindFailureIs(devices: seq<DeviceCheck>, kind: string, f: Failure)
    ensures var statuses := StatusesOf(devices, kind);
            f in KindFailure(kind, statuses) <==>
              || (f == DeviceMissing(kind) && forall s :: DeviceCheck(kind, s) in devices ==> !AllowedStatus(s))
              || (f == DeviceNotOk(kind, statuses)
                  && exists s :: AllowedStatus(s) && s != "ok" && DeviceCheck(kind, s) in devices)
  {
    var statuses := StatusesOf(devices, kind);
    forall s ensures s in statuses <==> AllowedStatus(s) && DeviceCheck(kind, s) in devices {
      StatusesAre(devices, kind, s);
    }
    if statuses != [] {
      assert statuses[0] in statuses;
    }
  }

  predicate LacksKind(devices: seq<DeviceCheck>, kind: string, f: Failure) {
    f in KindFailure(kind, StatusesOf(devices, kind))
  }

  lemma {:induction false} KindFailuresAre(devices: seq<DeviceCheck>, kinds: seq<string>, f: Failure)
    ensures f in KindFailures(devices, kinds) <==> exists i | 0 <= i < |kinds| :: LacksKind(devices, kinds[i], f)
  {
    if kinds != [] {
      var k := |kinds| - 1;
      KindFailuresAre(devices, kinds[..k], f);
      assert f in KindFailures(devices, kinds)
        <==> f in KindFailures(devices, kinds[..k]) || LacksKind(devices, kinds[k], f);
      if i :| 0 <= i < k && LacksKind(devices, kinds[..k][i], f) {
        assert LacksKind(devices, kinds[i], f);
      }
      if i :| 0 <= i < |kinds| && LacksKind(devices, kinds[i], f) {
        assert i == k || LacksKind(devices, kinds[..k][i], f);
      }
    }
  }

  /** What the connection contributes: one failure at most. */
  lemma LinkFailureIs(report: Report)
    ensures var c := report.connection;
            LinkFailure(report)
            == if c != "good" && c != "fair" && c != "poor" && c != "unknown" then [InvalidConnection(c)]
               else if c == "poor" || c == "unknown" then [PoorConnection(c)]
               else if report.bandwidthKbps < 300 then [LowBandwidth(report.bandwidthKbps)]
               else []
  {
    var c := report.connection;
    assert c in {"good", "fair", "poor", "unknown"} <==> c == "good" || c == "fair" || c == "poor" || c == "unknown";
    assert c in {"poor", "unknown"} <==> c == "poor" || c == "unknown";
  }

  /** Which failures a report of the current version is given, and that a stale one is given nothing else. */
  lemma FailuresAre(report: Report, f: Failure)
    ensures report.suiteVersion != "2026.08" ==> Failures(report) == [StaleSuite(report.suiteVersion)]
    ensures report.suiteVersion == "2026.08" ==>
              (f in Failures(report) <==>
                 || f in BadStatuses(report.devices) || f in LinkFailure(report)
                 || LacksKind(report.devices, "camera", f) || LacksKind(report.devices, "microphone", f)
                 || LacksKind(report.devices, "speaker", f))
  {
    var kinds := RequiredKinds();
    KindFailuresAre(report.devices, kinds, f);
    assert kinds[0] == "camera" && kinds[1] == "microphone" && kinds[2] == "speaker";
  }
}
