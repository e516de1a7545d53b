/** Detection of drift between the current database fingerprint and the last-run snapshot (database/drift.py). */
module DatabaseDrift {
  import opened Results
  import opened DatabaseSchema

  datatype Kind =
    | FirstRun | ServiceName | ComposeProjectName | DbHostMismatch | HostPort
    | DataPath | PostgresMajor | OdpmScenario | DataDirEmptyChanged | AppRoleMissing

  datatype Severity = Info | Low | Medium | High

  function SeverityOf(kind: Kind): Severity {
    match kind
    case FirstRun => Info
    case ServiceName | ComposeProjectName | DbHostMismatch | HostPort => Low
    case OdpmScenario | DataDirEmptyChanged => Medium
    case DataPath | PostgresMajor | AppRoleMissing => High
  }

  /** A compared value, as the drift record shows it. */
  datatype Shown = Text(text: string) | Port(port: int) | Flag(flag: bool)

  datatype Drift = Drift(kind: Kind, previous: Shown, current: Shown)

  function OrEmpty(value: Option<string>): string {
    if value.Some? then value.value else ""
  }

  /** The field a last-run comparison of this kind looks at; the other kinds look at none. */
  function Field(kind: Kind, scenario: string, compose: Compose, cluster: Cluster): Shown {
    match kind
    case ServiceName => Text(compose.serviceName)
    case ComposeProjectName => Text(OrEmpty(compose.projectName))
    case DataPath => Text(compose.dataPath)
    case PostgresMajor => Text(compose.imageTag)
    case HostPort => Port(compose.hostPort)
    case OdpmScenario => Text(scenario)
    case DataDirEmptyChanged => Flag(cluster.dataDirNonempty)
    case _ => Text("")
  }

  function Recorded(kind: Kind, r: LastRun): Shown { Field(kind, r.scenario, r.compose, r.cluster) }

  function Observed(kind: Kind, s: CurrentState): Shown { Field(kind, s.scenario, s.compose, s.cluster) }

  predicate Agrees(kind: Kind, s: CurrentState, r: LastRun) { Observed(kind, s) == Recorded(kind, r) }

  /** The kinds that compare the current state with the snapshot. */
  predicate LastRunRelative(kind: Kind) {
    match kind
    case ServiceName | ComposeProjectName | DataPath | PostgresMajor | HostPort
       | OdpmScenario | DataDirEmptyChanged => true
    case _ => false
  }

  /** Those kinds, in the order they are compared. */
  const LAST_RUN_KINDS :=
    [ServiceName, ComposeProjectName] + [DataPath, PostgresMajor] + [HostPort] + [OdpmScenario, DataDirEmptyChanged]

  function Compare(kinds: seq<Kind>, s: CurrentState, r: LastRun): seq<Drift> {
    if kinds == [] then []
    else if Agrees(kinds[0], s, r) then Compare(kinds[1..], s, r)
    else [Drift(kinds[0], Recorded(kinds[0], r), Observed(kinds[0], s))] + Compare(kinds[1..], s, r)
  }

  function DetectLastRun(s: CurrentState, r: LastRun): seq<Drift> {
    Compare(LAST_RUN_KINDS, s, r)
  }

  function DbHostDrift(s: CurrentState, skip: bool): seq<Drift> {
    if !skip && s.odooConf.dbHost != s.compose.serviceName
    then [Drift(DbHostMismatch, Text(s.compose.serviceName), Text(s.odooConf.dbHost))] else []
  }

  function RoleDrift(s: CurrentState): seq<Drift> {
    if s.cluster.appRolePresent == Some(false)
    then [Drift(AppRoleMissing, Text(""), Text(s.cluster.appRole))] else []
  }

  function DetectInternal(s: CurrentState, skipDbHost: bool): seq<Drift> {
    DbHostDrift(s, skipDbHost) + RoleDrift(s)
  }

  function Detect(s: CurrentState, lastRun: Option<LastRun>, skipDbHost: bool): seq<Drift> {
    (if lastRun.Some? then DetectLastRun(s, lastRun.value) else [Drift(FirstRun, Text(""), Text(""))])
    + DetectInternal(s, skipDbHost)
  }

  predicate NeedsResolution(kind: Kind) {
    kind.DataPath? || kind.PostgresMajor? || kind.AppRoleMissing? || kind.OdpmScenario? || kind.DataDirEmptyChanged?
  }

  /** `drifts_requiring_resolution`; `first_run` is filtered out with the rest. */
  function Requiring(drifts: seq<Drift>): seq<Drift> {
    if drifts == [] then []
    else if NeedsResolution(drifts[0].kind) then [drifts[0]] + Requiring(drifts[1..])
    else Requiring(drifts[1..])
  }

  function Pending(s: CurrentState, lastRun: Option<LastRun>): seq<Drift> {
    Requiring(Detect(s, lastRun, false))
  }

  // ---- Properties ----------------------------------------------------------------------------

  /** The last-run comparisons that require resolution, in order. */
  const RESOLVABLE := [DataPath, PostgresMajor] + [OdpmScenario, DataDirEmptyChanged]

  lemma {:induction false} RequiringConcat(a: seq<Drift>, b: seq<Drift>)
    ensures Requiring(a + b) == Requiring(a) + Requiring(b)
  {
    if a == [] {
      assert a + b == b;
    } else {
      assert (a + b)[0] == a[0] && (a + b)[1..] == a[1..] + b;
      RequiringConcat(a[1..], b);
    }
  }

  lemma {:induction false} RequiringMembers(drifts: seq<Drift>, d: Drift)
    ensures d in Requiring(drifts) <==> d in drifts && NeedsResolution(d.kind)
  {
    if drifts != [] {
      RequiringMembers(drifts[1..], d);
    }
  }

  lemma {:induction false} CompareConcat(a: seq<Kind>, b: seq<Kind>, s: CurrentState, r: LastRun)
    ensures Compare(a + b, s, r) == Compare(a, s, r) + Compare(b, s, r)
  {
    if a == [] {
      assert a + b == b;
    } else {
      assert (a + b)[0] == a[0] && (a + b)[1..] == a[1..] + b;
      CompareConcat(a[1..], b, s, r);
    }
  }

  lemma {:induction false} RequiringCompare(kinds: seq<Kind>, s: CurrentState, r: LastRun)
    ensures (forall k | k in kinds :: NeedsResolution(k)) ==> Requiring(Compare(kinds, s, r)) == Compare(kinds, s, r)
    ensures (forall k | k in kinds :: !NeedsResolution(k)) ==> Requiring(Compare(kinds, s, r)) == []
  {
    if kinds != [] {
      RequiringCompare(kinds[1..], s, r);
    }
  }

  lemma RequiringParts(a: seq<Drift>, b: seq<Drift>, c: seq<Drift>, d: seq<Drift>)
    requires Requiring(a) == Requiring(c) == []
    requires Requiring(b) == b && Requiring(d) == d
    ensures Requiring(a + b + c + d) == b + d
  {
    RequiringConcat(a, b);
    RequiringConcat(a + b, c);
    RequiringConcat(a + b + c, d);
    assert [] + b + [] + d == b + d;
  }

  lemma CompareParts(a: seq<Kind>, b: seq<Kind>, c: seq<Kind>, d: seq<Kind>, s: CurrentState, r: LastRun)
    ensures Compare(a + b + c + d, s, r)
         == Compare(a, s, r) + Compare(b, s, r) + Compare(c, s, r) + Compare(d, s, r)
  {
    CompareConcat(a, b, s, r);
    CompareConcat(a + b, c, s, r);
    CompareConcat(a + b + c, d, s, r);
  }

  lemma RequiringLastRun(s: CurrentState, r: LastRun)
    ensures Requiring(DetectLastRun(s, r)) == Compare(RESOLVABLE, s, r)
  {
    var a, b, c, d := [ServiceName, ComposeProjectName], [DataPath, PostgresMajor], [HostPort],
                      [OdpmScenario, DataDirEmptyChanged];
    CompareParts(a, b, c, d, s, r);
    CompareConcat(b, d, s, r);
    RequiringCompare(a, s, r);
    RequiringCompare(b, s, r);
    RequiringCompare(c, s, r);
    RequiringCompare(d, s, r);
    RequiringParts(Compare(a, s, r), Compare(b, s, r), Compare(c, s, r), Compare(d, s, r));
  }

  /** What is pending: the resolvable comparisons in detection order, then the missing role. */
  lemma PendingShape(s: CurrentState, lastRun: Option<LastRun>)
    ensures Pending(s, lastRun) ==
      (if lastRun.Some? then Compare(RESOLVABLE, s, lastRun.value) else []) + RoleDrift(s)
  {
    var head := if lastRun.Some? then DetectLastRun(s, lastRun.value) else [Drift(FirstRun, Text(""), Text(""))];
    RequiringConcat(head, DetectInternal(s, false));
    RequiringConcat(DbHostDrift(s, false), RoleDrift(s));
    assert Requiring(DbHostDrift(s, false)) == [];
    assert Requiring(RoleDrift(s)) == RoleDrift(s);
    assert [] + RoleDrift(s) == RoleDrift(s);
    if lastRun.Some? {
      RequiringLastRun(s, lastRun.value);
    }
  }

  lemma {:induction false} CompareMembers(kinds: seq<Kind>, s: CurrentState, r: LastRun, d: Drift)
    ensures d in Compare(kinds, s, r) <==>
      && d.kind in kinds && !Agrees(d.kind, s, r)
      && d.previous == Recorded(d.kind, r) && d.current == Observed(d.kind, s)
  {
    if kinds != [] {
      CompareMembers(kinds[1..], s, r, d);
    }
  }

  lemma {:induction false} CompareEmpty(kinds: seq<Kind>, s: CurrentState, r: LastRun)
    ensures Compare(kinds, s, r) == [] <==> forall k | k in kinds :: Agrees(k, s, r)
  {
    if kinds != [] {
      CompareEmpty(kinds[1..], s, r);
    }
  }

  /** One drift, if the recorded and the observed value differ. */
  function Moved(kind: Kind, previous: Shown, current: Shown): seq<Drift> {
    if previous == current then [] else [Drift(kind, previous, current)]
  }

  /** Which field each kind compares: one drift for each field that differs, in this order, showing the recorded and
      then the observed value. */
  lemma DetectedFields(s: CurrentState, r: LastRun)
    ensures DetectLastRun(s, r) ==
      Moved(ServiceName, Text(r.compose.serviceName), Text(s.compose.serviceName))
      + Moved(ComposeProjectName, Text(OrEmpty(r.compose.projectName)), Text(OrEmpty(s.compose.projectName)))
      + Moved(DataPath, Text(r.compose.dataPath), Text(s.compose.dataPath))
      + Moved(PostgresMajor, Text(r.compose.imageTag), Text(s.compose.imageTag))
      + Moved(HostPort, Port(r.compose.hostPort), Port(s.compose.hostPort))
      + Moved(OdpmScenario, Text(r.scenario), Text(s.scenario))
      + Moved(DataDirEmptyChanged, Flag(r.cluster.dataDirNonempty), Flag(s.cluster.dataDirNonempty))
  {
    hide Compare, Moved;
    var a, b, c, d := [ServiceName, ComposeProjectName], [DataPath, PostgresMajor], [HostPort],
                      [OdpmScenario, DataDirEmptyChanged];
    CompareParts(a, b, c, d, s, r);
    ComparePair(ServiceName, ComposeProjectName, s, r);
    ComparePair(DataPath, PostgresMajor, s, r);
    CompareOne(HostPort, s, r);
    ComparePair(OdpmScenario, DataDirEmptyChanged, s, r);
    Regroup(Compare(a, s, r), Compared(DataPath, s, r), Compared(PostgresMajor, s, r), Compared(HostPort, s, r),
            Compared(OdpmScenario, s, r), Compared(DataDirEmptyChanged, s, r));
  }

  function Compared(k: Kind, s: CurrentState, r: LastRun): seq<Drift> {
    Moved(k, Recorded(k, r), Observed(k, s))
  }

  lemma Regroup(a: seq<Drift>, b: seq<Drift>, c: seq<Drift>, d: seq<Drift>, e: seq<Drift>, f: seq<Drift>)
    ensures a + (b + c) + d + (e + f) == a + b + c + d + e + f
  {
  }

  lemma CompareOne(k: Kind, s: CurrentState, r: LastRun)
    ensures Compare([k], s, r) == Compared(k, s, r)
  {
    assert Compare([k][1..], s, r) == [];
  }

  lemma ComparePair(k: Kind, l: Kind, s: CurrentState, r: LastRun)
    ensures Compare([k, l], s, r) == Compared(k, s, r) + Compared(l, s, r)
  {
    assert [k, l] == [k] + [l];
    CompareConcat([k], [l], s, r);
    CompareOne(k, s, r);
    CompareOne(l, s, r);
  }

  /** Everything that is detected: those, or that this is the first run; then a configured host that is not the database
      service, unless that check is skipped; then an absent role. */
  lemma DetectedExactly(s: CurrentState, lastRun: Option<LastRun>, skipDbHost: bool)
    ensures Detect(s, lastRun, skipDbHost) ==
      (if lastRun.Some? then DetectLastRun(s, lastRun.value) else [Drift(FirstRun, Text(""), Text(""))])
      + (if skipDbHost then [] else Moved(DbHostMismatch, Text(s.compose.serviceName), Text(s.odooConf.dbHost)))
      + (if s.cluster.appRolePresent == Some(false) then [Drift(AppRoleMissing, Text(""), Text(s.cluster.appRole))] else [])
  {
    hide DetectLastRun;
    var head := if lastRun.Some? then DetectLastRun(s, lastRun.value) else [Drift(FirstRun, Text(""), Text(""))];
    assert head + (DbHostDrift(s, skipDbHost) + RoleDrift(s)) == head + DbHostDrift(s, skipDbHost) + RoleDrift(s);
  }

  /** What is pending, over the two states: a moved data directory, a changed image, scenario or state of the data
      directory, and then an absent role; other differences are not. */
  lemma PendingFields(s: CurrentState, lastRun: Option<LastRun>)
    ensures Pending(s, lastRun) ==
      (match lastRun
       case None => []
       case Some(r) =>
         Moved(DataPath, Text(r.compose.dataPath), Text(s.compose.dataPath))
         + Moved(PostgresMajor, Text(r.compose.imageTag), Text(s.compose.imageTag))
         + Moved(OdpmScenario, Text(r.scenario), Text(s.scenario))
         + Moved(DataDirEmptyChanged, Flag(r.cluster.dataDirNonempty), Flag(s.cluster.dataDirNonempty)))
      + (if s.cluster.appRolePresent == Some(false) then [Drift(AppRoleMissing, Text(""), Text(s.cluster.appRole))] else [])
  {
    hide Compare, Pending;
    PendingShape(s, lastRun);
    if lastRun.Some? {
      var r := lastRun.value;
      CompareConcat([DataPath, PostgresMajor], [OdpmScenario, DataDirEmptyChanged], s, r);
      ComparePair(DataPath, PostgresMajor, s, r);
      ComparePair(OdpmScenario, DataDirEmptyChanged, s, r);
    }
  }

  lemma LastRunKindsComplete(k: Kind)
    ensures k in LAST_RUN_KINDS <==> LastRunRelative(k)
  {
  }

  /** No last-run drift exactly when every compared field agrees. */
  lemma NoLastRunDrift(s: CurrentState, r: LastRun)
    ensures DetectLastRun(s, r) == [] <==>
      && s.compose.serviceName == r.compose.serviceName
      && OrEmpty(s.compose.projectName) == OrEmpty(r.compose.projectName)
      && s.compose.dataPath == r.compose.dataPath
      && s.compose.imageTag == r.compose.imageTag
      && s.compose.hostPort == r.compose.hostPort
      && s.scenario == r.scenario
      && s.cluster.dataDirNonempty == r.cluster.dataDirNonempty
  {
    CompareEmpty(LAST_RUN_KINDS, s, r);
    forall k ensures k in LAST_RUN_KINDS <==> LastRunRelative(k) {
      LastRunKindsComplete(k);
    }
    if DetectLastRun(s, r) == [] {
      assert Agrees(ServiceName, s, r) && Agrees(ComposeProjectName, s, r) && Agrees(DataPath, s, r)
          && Agrees(PostgresMajor, s, r) && Agrees(HostPort, s, r) && Agrees(OdpmScenario, s, r)
          && Agrees(DataDirEmptyChanged, s, r);
    }
  }

  /** Nothing at all is detected exactly when there is a snapshot that agrees in every compared field, the configured
      host is the database service unless that check is skipped, and the role is not absent. */
  lemma NothingDetected(s: CurrentState, r: LastRun, skipDbHost: bool)
    ensures Detect(s, Some(r), skipDbHost) == [] <==>
      && s.compose.(odooServiceName := r.compose.odooServiceName, projectName := r.compose.projectName) == r.compose
      && OrEmpty(s.compose.projectName) == OrEmpty(r.compose.projectName)
      && s.scenario == r.scenario && s.cluster.dataDirNonempty == r.cluster.dataDirNonempty
      && (skipDbHost || s.odooConf.dbHost == s.compose.serviceName)
      && s.cluster.appRolePresent != Some(false)
    ensures Detect(s, None, skipDbHost) != []
  {
    NoLastRunDrift(s, r);
  }

  /** Against its own snapshot, taken with any role flag, a state shows internal drift only, and only
      a missing role is left to resolve. */
  lemma OwnSnapshotHasInternalDriftOnly(s: CurrentState, role: Option<bool>, now: string, skipDbHost: bool)
    ensures DetectLastRun(s, s.WithRole(role).ToLastRun(now)) == []
    ensures Detect(s, Some(s.WithRole(role).ToLastRun(now)), skipDbHost) == DetectInternal(s, skipDbHost)
    ensures Pending(s, Some(s.WithRole(role).ToLastRun(now))) == RoleDrift(s)
  {
    var r := s.WithRole(role).ToLastRun(now);
    NoLastRunDrift(s, r);
    assert [] + DetectInternal(s, skipDbHost) == DetectInternal(s, skipDbHost);
    PendingWithoutLastRunDrift(s, r);
  }

  lemma PendingWithoutLastRunDrift(s: CurrentState, r: LastRun)
    requires forall k | k in RESOLVABLE :: Agrees(k, s, r)
    ensures Pending(s, Some(r)) == RoleDrift(s)
  {
    CompareEmpty(RESOLVABLE, s, r);
    PendingShape(s, Some(r));
    assert [] + RoleDrift(s) == RoleDrift(s);
  }

  /** A snapshot recorded inside the container from the same host state shows, beyond internal drift,
      at most the compose project name; so nothing but a missing role can require resolution. */
  lemma ContainerSnapshotDrift(s: CurrentState, rolePresent: bool, now: string, skipDbHost: bool)
    ensures var r := FromHostState(s).ToLastRun(s.scenario, rolePresent, now);
      && r == LastRun(1, now, s.scenario, s.compose.(projectName := None, odooServiceName := None), s.odooConf,
                      s.cluster.(appRolePresent := Some(rolePresent)))
      && (forall d | d in Detect(s, Some(r), skipDbHost) ::
            d in DetectInternal(s, skipDbHost)
            || d == Drift(ComposeProjectName, Text(""), Text(OrEmpty(s.compose.projectName))))
      && (DetectLastRun(s, r) == [] <==> OrEmpty(s.compose.projectName) == "")
      && Pending(s, Some(r)) == RoleDrift(s)
  {
    var r := FromHostState(s).ToLastRun(s.scenario, rolePresent, now);
    NoLastRunDrift(s, r);
    forall d | d in Detect(s, Some(r), skipDbHost) && d !in DetectInternal(s, skipDbHost)
      ensures d == Drift(ComposeProjectName, Text(""), Text(OrEmpty(s.compose.projectName)))
    {
      CompareMembers(LAST_RUN_KINDS, s, r, d);
    }
    PendingWithoutLastRunDrift(s, r);
  }
}
