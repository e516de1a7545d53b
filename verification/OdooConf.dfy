/** The manifest's `odoo_conf` block: normalisation, merging, and the keys odpm keeps for itself
    (manifest/odoo_conf.py, manifest/odoo_conf_policy.py). */
module OdooConf {
  import opened Results
  import opened Text

  /** A section as written: an object of option values, where `None` is JSON null, or something else. */
  datatype Section = NotAnObject | Options(values: map<string, Option<string>>)

  type Conf = map<string, Section>

  /** Normalised sections. */
  type Sections = map<string, map<string, string>>

  const OPTIONS := "options"
  const DEVELOPER := "developer"
  const SERVER := "server"
  const CI := "ci"
  const SCENARIOS: seq<string> := [CI, DEVELOPER, SERVER]

  const GLOBAL_FROZEN: set<string> := {"addons_path", "data_dir", "admin_passwd", "http_port"}
  const DB_KEYS: set<string> := {"db_host", "db_port", "db_user", "db_password"}

  /** `frozen_keys_for_scenario` */
  function FrozenKeys(scenario: string): set<string> {
    if Strip(scenario) == CI then GLOBAL_FROZEN else GLOBAL_FROZEN + DB_KEYS
  }

  // ---- Normalisation and merging -------------------------------------------------------------------------------

  /** The values that are not null. */
  function Present(values: map<string, Option<string>>): map<string, string> {
    map k | k in values && values[k].Some? :: values[k].value
  }

  function Normalized(conf: Conf): Sections {
    map s | s in conf && conf[s].Options? && Present(conf[s].values) != map[] :: Present(conf[s].values)
  }

  /** `_normalize_odoo_conf_sections` */
  method NormalizeSections(conf: Conf) returns (sections: Sections)
    ensures sections == Normalized(conf)
  {
    sections := map[];
    var left := conf.Keys;
    while left != {}
      invariant left <= conf.Keys
      invariant sections == map s | s in Normalized(conf) && s !in left :: Normalized(conf)[s]
      decreases left
    {
      var s :| s in left;
      left := left - {s};
      if conf[s].Options? {
        var values := Present(conf[s].values);
        if values != map[] {
          sections := sections[s := values];
        }
      }
    }
  }

  function Get(sections: Sections, section: string): map<string, string> {
    if section in sections then sections[section] else map[]
  }

  function Lookup(sections: Sections, section: string, key: string): Option<string> {
    if key in Get(sections, section) then Some(Get(sections, section)[key]) else None
  }

  function Merged(base: Sections, overrides: Sections): Sections {
    map s | s in base.Keys + overrides.Keys :: Get(base, s) + Get(overrides, s)
  }

  /** `merge_odoo_conf_sections` */
  method MergeSections(base: Sections, overrides: Sections) returns (merged: Sections)
    ensures merged == Merged(base, overrides)
  {
    merged := base;
    var left := overrides.Keys;
    while left != {}
      invariant left <= overrides.Keys
      invariant merged.Keys == base.Keys + (overrides.Keys - left)
      invariant forall s | s in merged :: merged[s] == Get(base, s) + if s in left then map[] else Get(overrides, s)
      decreases left
    {
      var s :| s in left;
      left := left - {s};
      var section := if s in merged then merged[s] else map[];
      merged := merged[s := section + overrides[s]];
    }
  }

  /** A merged option has the override's value where there is one, else the base's. */
  lemma MergedLookup(base: Sections, overrides: Sections, section: string, key: string)
    ensures Lookup(Merged(base, overrides), section, key) ==
      if Lookup(overrides, section, key).Some? then Lookup(overrides, section, key) else Lookup(base, section, key)
  {
  }

  /** Normalisation keeps exactly the values that a section which is an object gives. */
  lemma NormalizedLookup(conf: Conf, section: string, key: string)
    ensures Lookup(Normalized(conf), section, key) ==
      if section in conf && conf[section].Options? && key in conf[section].values then conf[section].values[key] else None
  {
    if section in conf && conf[section].Options? && key in conf[section].values && conf[section].values[key].Some? {
      assert key in Present(conf[section].values);
    }
  }

  /** Normalised sections written back as a conf. */
  function AsConf(sections: Sections): Conf {
    map s | s in sections :: Options(map k | k in sections[s] :: Some(sections[s][k]))
  }

  // ---- Policy ------------------------------------------------------------------------------------------------------

  /** `_optional_dict`: an empty object counts as absent. */
  function OptionalConf(conf: Option<Conf>): Option<Conf> {
    if conf.Some? && conf.value == map[] then None else conf
  }

  /** The keys of the options section, null values included. */
  function OptionKeys(conf: Option<Conf>): set<string> {
    if conf.Some? && OPTIONS in conf.value && conf.value[OPTIONS].Options? then conf.value[OPTIONS].values.Keys else {}
  }

  /** An option odpm keeps for itself: always, or outside the ci scenario. */
  predicate Reserved(key: string, scenario: string) {
    || key in {"addons_path", "data_dir", "admin_passwd", "http_port"}
    || (Strip(scenario) != "ci" && key in {"db_host", "db_port", "db_user", "db_password"})
  }

  lemma ReservedExactlyWhenFrozen(key: string, scenario: string)
    ensures Reserved(key, scenario) <==> key in FrozenKeys(scenario)
  {
    hide Strip;
  }

  /** `validate_manifest_odoo_conf`: rejects the first frozen key it meets. */
  method ValidateOdooConf(conf: Option<Conf>, scenario: string) returns (r: Result<(), string>)
    ensures r.Ok? <==> OptionKeys(conf) !! FrozenKeys(scenario)
    ensures r.Ok? <==>
      (conf.Some? && "options" in conf.value && conf.value["options"].Options? ==>
         forall key | key in conf.value["options"].values :: !Reserved(key, scenario))
    ensures r.Err? ==> r.error in OptionKeys(conf) * FrozenKeys(scenario)
  {
    hide Strip, Reserved;
    forall key ensures Reserved(key, scenario) <==> key in FrozenKeys(scenario) {
      ReservedExactlyWhenFrozen(key, scenario);
    }
    var frozen := FrozenKeys(scenario);
    var left := OptionKeys(conf);
    while left != {}
      invariant left <= OptionKeys(conf)
      invariant OptionKeys(conf) - left !! frozen
      decreases left
    {
      var key :| key in left;
      left := left - {key};
      if key in frozen {
        return Err(key);
      }
    }
    r := Ok(());
  }

  lemma AsConfKeys(sections: Sections)
    ensures OptionKeys(Some(AsConf(sections))) == Get(sections, OPTIONS).Keys
  {
  }
}
