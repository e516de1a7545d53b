/** Database fingerprints, the last-run snapshot and its JSON form (database/schema.py), and the
    fingerprint embedded in the container configuration (container_config/database_context.py). */
module DatabaseSchema {
  import opened Results

  const SCHEMA_VERSION := 1
  const ENGINE_POSTGRES := "postgres"

  datatype Compose = Compose(serviceName: string, imageTag: string, dataPath: string, hostPort: int,
                             projectName: Option<string>, odooServiceName: Option<string>)

  datatype OdooConf = OdooConf(dbHost: string, dbPort: int, dbUser: string)

  datatype Cluster = Cluster(dataDirNonempty: bool, pgMajor: Option<int>, appRole: string,
                             appRolePresent: Option<bool>)

  datatype CurrentState = CurrentState(scenario: string, compose: Compose, odooConf: OdooConf, cluster: Cluster) {
    /** `to_last_run` at the given time. */
    function ToLastRun(now: string): LastRun {
      LastRun(SCHEMA_VERSION, now, scenario, compose, odooConf, cluster)
    }

    function WithRole(present: Option<bool>): CurrentState {
      this.(cluster := cluster.(appRolePresent := present))
    }
  }

  datatype LastRun = LastRun(schemaVersion: int, recordedAt: string, scenario: string, compose: Compose,
                             odooConf: OdooConf, cluster: Cluster)

  // ---- JSON form ---------------------------------------------------------------------------

  datatype Json = Null | Bool(flag: bool) | Int(num: int) | Str(text: string) | Object(fields: map<string, Json>)

  type Fields = map<string, Json>

  datatype LoadError = MissingKey(key: string) | WrongType(key: string) | UnsupportedVersion | UnsupportedEngine

  /** A key whose value is only written when present. */
  function Maybe(key: string, value: Option<Json>): Fields {
    if value.Some? then map[key := value.value] else map[]
  }

  function OptStr(value: Option<string>): Option<Json> {
    if value.Some? then Some(Str(value.value)) else None
  }

  function ComposeToDict(c: Compose): Fields {
    map["service_name" := Str(c.serviceName), "image_tag" := Str(c.imageTag),
        "data_path_abs" := Str(c.dataPath), "host_port" := Int(c.hostPort)]
    + Maybe("compose_project_name", OptStr(c.projectName))
    + Maybe("odoo_service_name", OptStr(c.odooServiceName))
  }

  function OdooConfToDict(o: OdooConf): Fields {
    map["db_host" := Str(o.dbHost), "db_port" := Int(o.dbPort), "db_user" := Str(o.dbUser)]
  }

  function ClusterToDict(c: Cluster): Fields {
    map["data_dir_nonempty" := Bool(c.dataDirNonempty), "app_role" := Str(c.appRole)]
    + Maybe("pg_major", if c.pgMajor.Some? then Some(Int(c.pgMajor.value)) else None)
    + Maybe("app_role_present", if c.appRolePresent.Some? then Some(Bool(c.appRolePresent.value)) else None)
  }

  function LastRunToDict(r: LastRun): Fields {
    map["schema_version" := Int(r.schemaVersion), "recorded_at" := Str(r.recordedAt),
        "odpm_scenario" := Str(r.scenario), "engine" := Str(ENGINE_POSTGRES),
        "compose" := Object(ComposeToDict(r.compose)), "odoo_conf" := Object(OdooConfToDict(r.odooConf)),
        "cluster" := Object(ClusterToDict(r.cluster))]
  }

  function GetStr(d: Fields, key: string): Result<string, LoadError> {
    if key !in d then Err(MissingKey(key))
    else if d[key].Str? then Ok(d[key].text) else Err(WrongType(key))
  }

  function GetInt(d: Fields, key: string): Result<int, LoadError> {
    if key !in d then Err(MissingKey(key))
    else if d[key].Int? then Ok(d[key].num) else Err(WrongType(key))
  }

  function GetStrOr(d: Fields, key: string, default: string): Result<string, LoadError> {
    if key in d then GetStr(d, key) else Ok(default)
  }

  /** Absent and null both read as `None`. */
  predicate IsNone(d: Fields, key: string) {
    key !in d || d[key].Null?
  }

  function GetOptStr(d: Fields, key: string): Result<Option<string>, LoadError> {
    if IsNone(d, key) then Ok(None) else
    var s :- GetStr(d, key);
    Ok(Some(s))
  }

  function GetOptInt(d: Fields, key: string): Result<Option<int>, LoadError> {
    if IsNone(d, key) then Ok(None) else
    var n :- GetInt(d, key);
    Ok(Some(n))
  }

  function GetOptBool(d: Fields, key: string): Result<Option<bool>, LoadError> {
    if IsNone(d, key) then Ok(None)
    else if d[key].Bool? then Ok(Some(d[key].flag)) else Err(WrongType(key))
  }

  function GetObject(d: Fields, key: string): Result<Fields, LoadError> {
    if key in d && d[key].Object? then Ok(d[key].fields) else Err(WrongType(key))
  }

  function ComposeFromDict(d: Fields): Result<Compose, LoadError> {
    var serviceName :- GetStr(d, "service_name");
    var imageTag :- GetStr(d, "image_tag");
    var dataPath :- GetStr(d, "data_path_abs");
    var hostPort :- GetInt(d, "host_port");
    var projectName :- GetOptStr(d, "compose_project_name");
    var odooServiceName :- GetOptStr(d, "odoo_service_name");
    Ok(Compose(serviceName, imageTag, dataPath, hostPort, projectName, odooServiceName))
  }

  function OdooConfFromDict(d: Fields): Result<OdooConf, LoadError> {
    var dbHost :- GetStr(d, "db_host");
    var dbPort :- GetInt(d, "db_port");
    var dbUser :- GetStr(d, "db_user");
    Ok(OdooConf(dbHost, dbPort, dbUser))
  }

  function ClusterFromDict(d: Fields): Result<Cluster, LoadError> {
    var nonempty :- GetOptBool(d, "data_dir_nonempty");
    var pgMajor :- GetOptInt(d, "pg_major");
    var appRole :- GetStrOr(d, "app_role", "");
    var present :- GetOptBool(d, "app_role_present");
    Ok(Cluster(nonempty == Some(true), pgMajor, appRole, present))
  }

  function LastRunFromDict(d: Fields): Result<LastRun, LoadError> {
    var version :- if "schema_version" in d then GetInt(d, "schema_version") else Ok(0);
    if version != SCHEMA_VERSION then Err(UnsupportedVersion) else
    var composeRaw :- GetObject(d, "compose");
    var odooConfRaw :- GetObject(d, "odoo_conf");
    var clusterRaw :- GetObject(d, "cluster");
    var engine :- GetStrOr(d, "engine", "");
    if engine != ENGINE_POSTGRES then Err(UnsupportedEngine) else
    var recordedAt :- GetStrOr(d, "recorded_at", "");
    var scenario :- GetStrOr(d, "odpm_scenario", "");
    var compose :- ComposeFromDict(composeRaw);
    var odooConf :- OdooConfFromDict(odooConfRaw);
    var cluster :- ClusterFromDict(clusterRaw);
    Ok(LastRun(version, recordedAt, scenario, compose, odooConf, cluster))
  }

  lemma ComposeRoundTrip(c: Compose)
    ensures ComposeFromDict(ComposeToDict(c)) == Ok(c)
  {
    var d := ComposeToDict(c);
    assert GetStr(d, "service_name") == Ok(c.serviceName);
    assert GetStr(d, "image_tag") == Ok(c.imageTag);
    assert GetStr(d, "data_path_abs") == Ok(c.dataPath);
    assert GetInt(d, "host_port") == Ok(c.hostPort);
    assert GetOptStr(d, "compose_project_name") == Ok(c.projectName);
    assert GetOptStr(d, "odoo_service_name") == Ok(c.odooServiceName);
  }

  lemma ClusterRoundTrip(c: Cluster)
    ensures ClusterFromDict(ClusterToDict(c)) == Ok(c)
  {
    var d := ClusterToDict(c);
    assert GetOptInt(d, "pg_major") == Ok(c.pgMajor);
    assert GetOptBool(d, "app_role_present") == Ok(c.appRolePresent);
  }

  /** A snapshot survives being written and read back, exactly when its schema version is the supported one. */
  lemma LastRunRoundTrip(r: LastRun)
    ensures LastRunFromDict(LastRunToDict(r)) == (if r.schemaVersion == SCHEMA_VERSION then Ok(r) else Err(UnsupportedVersion))
  {
    hide ComposeToDict, ComposeFromDict, ClusterToDict, ClusterFromDict;
    ComposeRoundTrip(r.compose);
    ClusterRoundTrip(r.cluster);
    var d := LastRunToDict(r);
    assert GetInt(d, "schema_version") == Ok(r.schemaVersion);
    assert GetStrOr(d, "recorded_at", "") == Ok(r.recordedAt);
    assert GetStrOr(d, "odpm_scenario", "") == Ok(r.scenario);
    assert GetObject(d, "compose") == Ok(ComposeToDict(r.compose));
    assert GetObject(d, "odoo_conf") == Ok(OdooConfToDict(r.odooConf));
    assert GetObject(d, "cluster") == Ok(ClusterToDict(r.cluster));
    assert GetStrOr(d, "engine", "") == Ok(ENGINE_POSTGRES);
  }

  /** What is read where optional keys are missing: no time, scenario or role, and nothing known of the data directory. */
  lemma SparseReads(c: Compose, o: OdooConf)
    ensures LastRunFromDict(map["schema_version" := Int(1), "engine" := Str("postgres"),
                                "compose" := Object(ComposeToDict(c)), "odoo_conf" := Object(OdooConfToDict(o)),
                                "cluster" := Object(map[])])
         == Ok(LastRun(1, "", "", c, o, Cluster(false, None, "", None)))
  {
    hide ComposeToDict, ComposeFromDict;
    ComposeRoundTrip(c);
    assert GetInt(map["schema_version" := Int(1), "engine" := Str("postgres"), "compose" := Object(ComposeToDict(c)),
                      "odoo_conf" := Object(OdooConfToDict(o)), "cluster" := Object(map[])], "schema_version") == Ok(1);
  }

  /** Without a version, or of another engine or none, nothing is read. */
  lemma Unversioned(d: Fields)
    ensures "schema_version" !in d ==> LastRunFromDict(d) == Err(UnsupportedVersion)
    ensures ("engine" in d ==> d["engine"] != Str("postgres")) ==> LastRunFromDict(d).Err?
  {
    hide ComposeFromDict, ClusterFromDict, OdooConfFromDict;
  }

  // ---- The container's copy of the fingerprint -------------------------------------------------

  datatype ContainerContext = ContainerContext(
    serviceName: string, imageTag: string, dataPath: string, hostPort: int, dataDirNonempty: bool,
    pgMajor: Option<int>, appRole: string, dbHost: string, dbPort: int, dbUser: string)
  {
    function ToCurrentState(scenario: string, rolePresent: bool): CurrentState {
      CurrentState(scenario,
                   Compose(serviceName, imageTag, dataPath, hostPort, None, None),
                   OdooConf(dbHost, dbPort, dbUser),
                   Cluster(dataDirNonempty, pgMajor, appRole, Some(rolePresent)))
    }

    function ToLastRun(scenario: string, rolePresent: bool, now: string): LastRun {
      ToCurrentState(scenario, rolePresent).ToLastRun(now)
    }
  }

  function FromHostState(s: CurrentState): ContainerContext {
    ContainerContext(s.compose.serviceName, s.compose.imageTag, s.compose.dataPath, s.compose.hostPort,
                     s.cluster.dataDirNonempty, s.cluster.pgMajor, s.cluster.appRole,
                     s.odooConf.dbHost, s.odooConf.dbPort, s.odooConf.dbUser)
  }
}
