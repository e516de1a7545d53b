/** Scenario overlays of a v2 manifest: effective slices and their validation (manifest/scenario_overrides.py). */
module ScenarioOverrides {
  import opened Results
  import opened Text
  import opened Sequences
  import opened OdooConf

  // ---- Merged lists ----------------------------------------------------------------------------------------------

  function Given(items: Option<seq<string>>): seq<string> {
    if items.Some? then items.value else []
  }

  method AppendNew(merged: seq<string>, items: seq<string>) returns (r: seq<string>)
    ensures r == Extend(merged, Clean(items))
  {
    r := merged;
    for i := 0 to |items|
      invariant Extend(r, Clean(items[i..])) == Extend(merged, Clean(items))
    {
      CleanStep(items, i);
      var cleaned := Strip(items[i]);
      if cleaned != "" && cleaned !in r {
        r := r + [cleaned];
      }
    }
  }

  /** The merged requirement or dependency list: base entries first, each once, none when nothing is left. */
  function MergedList(base: Option<seq<string>>, overlay: Option<seq<string>>): Option<seq<string>> {
    var merged := Extend([], Clean(Given(base)) + Clean(Given(overlay)));
    if merged == [] then None else Some(merged)
  }

  /** `_merge_string_list` */
  method MergeStringList(base: Option<seq<string>>, overlay: Option<seq<string>>) returns (r: Option<seq<string>>)
    ensures r == MergedList(base, overlay)
  {
    var merged := AppendNew([], Given(base));
    merged := AppendNew(merged, Given(overlay));
    ExtendConcat([], Clean(Given(base)), Clean(Given(overlay)));
    r := if merged == [] then None else Some(merged);
  }

  lemma {:induction false} ExtendAbsorbs(acc: seq<string>, items: seq<string>)
    requires forall x | x in items :: x in acc
    ensures Extend(acc, items) == acc
    decreases |items|
  {
    if items != [] {
      assert items[0] in items;
      ExtendAbsorbs(acc, items[1..]);
    }
  }

  lemma MergedIsClean(base: Option<seq<string>>, overlay: Option<seq<string>>)
    ensures var merged := Extend([], Clean(Given(base)) + Clean(Given(overlay)));
      Clean(merged) == merged && NoDuplicates(merged)
  {
    var a, b := Clean(Given(base)), Clean(Given(overlay));
    var merged := Extend([], a + b);
    ExtendNoDuplicates([], a + b);
    forall i | 0 <= i < |merged| ensures merged[i] != "" && IsStripped(merged[i]) {
      ExtendMembers([], a + b, merged[i]);
      if merged[i] in a {
        CleanIsStripped(Given(base), merged[i]);
      } else {
        CleanIsStripped(Given(overlay), merged[i]);
      }
    }
    CleanFixed(merged);
  }

  /** Merging the same overlay again changes nothing. */
  lemma MergedListTwice(base: Option<seq<string>>, overlay: Option<seq<string>>)
    ensures MergedList(MergedList(base, overlay), overlay) == MergedList(base, overlay)
  {
    var a, b := Clean(Given(base)), Clean(Given(overlay));
    var merged := Extend([], a + b);
    MergedIsClean(base, overlay);
    assert [] + merged == merged;
    ExtendFresh([], merged);
    ExtendConcat([], merged, b);
    forall y | y in b ensures y in merged {
      ExtendMembers([], a + b, y);
    }
    ExtendAbsorbs(merged, b);
  }

  /** A merged list holds exactly the stripped entries of both lists, each once, the base's as its front. */
  lemma MergedListMeaning(base: Option<seq<string>>, overlay: Option<seq<string>>, x: string)
    ensures var merged := Given(MergedList(base, overlay));
      && NoDuplicates(merged)
      && (x in merged <==> x in Clean(Given(base)) || x in Clean(Given(overlay)))
      && Given(MergedList(base, None)) <= merged
  {
    var a, b := Clean(Given(base)), Clean(Given(overlay));
    MergedIsClean(base, overlay);
    ExtendMembers([], a + b, x);
    ExtendConcat([], a, b);
    assert a + Clean([]) == a;
  }

  // ---- Effective odoo_conf ---------------------------------------------------------------------------------------

  datatype Overlay = Overlay(odooConf: Option<Conf>)

  /** The parts of a manifest that decide about `odoo_conf`. `scenarios` is absent, or maps names to overlays; if it
      is not an object it counts as empty, and an entry that is not an object as undeclared. */
  datatype Manifest = Manifest(schemaV2: bool, odooConf: Option<Conf>, scenarios: Option<map<string, Option<Overlay>>>)

  predicate Declared(m: Manifest, scenario: string) {
    m.scenarios.Some? && scenario in m.scenarios.value && m.scenarios.value[scenario].Some?
  }

  function OverlayConf(m: Manifest, scenario: string): Option<Conf>
    requires Declared(m, scenario)
  {
    OptionalConf(m.scenarios.value[scenario].value.odooConf)
  }

  function ConfSections(conf: Option<Conf>): Sections {
    if conf.Some? then Normalized(conf.value) else map[]
  }

  /** The `odoo_conf` of `merge_manifest_slice`. */
  function MergedConf(base: Option<Conf>, overlay: Option<Conf>): Option<Conf> {
    var merged := Merged(ConfSections(base), ConfSections(overlay));
    if merged == map[] then None else Some(AsConf(merged))
  }

  /** The `odoo_conf` of `resolve_effective_manifest_slice`; unknown scenarios count as developer. */
  function EffectiveConf(m: Manifest, active: string): Option<Conf> {
    var scenario := if active in SCENARIOS then active else DEVELOPER;
    if Declared(m, scenario) then MergedConf(OptionalConf(m.odooConf), OverlayConf(m, scenario)) else OptionalConf(m.odooConf)
  }

  /** `resolve_effective_manifest_slice` */
  method ResolveEffectiveConf(m: Manifest, active: string) returns (conf: Option<Conf>)
    ensures conf == EffectiveConf(m, active)
  {
    var scenario := if active in SCENARIOS then active else DEVELOPER;
    var base := OptionalConf(m.odooConf);
    if !Declared(m, scenario) {
      return base;
    }
    var baseSections: Sections, overlaySections: Sections := map[], map[];
    if base.Some? {
      baseSections := NormalizeSections(base.value);
    }
    var overlay := OverlayConf(m, scenario);
    if overlay.Some? {
      overlaySections := NormalizeSections(overlay.value);
    }
    var merged := MergeSections(baseSections, overlaySections);
    conf := if merged == map[] then None else Some(AsConf(merged));
  }

  // ---- Validation ---------------------------------------------------------------------------------------------------

  datatype Rejection = ScenariosNeedV2 | Frozen(scenario: string, key: string)

  /** What the checks on root, overlays and effective slices accept, read off the code. */
  predicate Accepted(m: Manifest) {
    if !m.schemaV2 then m.scenarios.None?
    else if m.scenarios.None? then OptionKeys(OptionalConf(m.odooConf)) !! FrozenKeys(DEVELOPER)
    else
      && OptionKeys(OptionalConf(m.odooConf)) !! FrozenKeys(CI)
      && (forall s | s in m.scenarios.value && Declared(m, s) :: OptionKeys(OverlayConf(m, s)) !! FrozenKeys(s))
      && (forall s | s in SCENARIOS :: OptionKeys(EffectiveConf(m, s)) !! FrozenKeys(s))
  }

  method ValidateDeclaredOverlays(m: Manifest) returns (r: Result<(), Rejection>)
    requires m.scenarios.Some?
    ensures r.Ok? <==> forall s | s in m.scenarios.value && Declared(m, s) :: OptionKeys(OverlayConf(m, s)) !! FrozenKeys(s)
  {
    var left := m.scenarios.value.Keys;
    while left != {}
      invariant left <= m.scenarios.value.Keys
      invariant forall s | s in m.scenarios.value && s !in left && Declared(m, s) :: OptionKeys(OverlayConf(m, s)) !! FrozenKeys(s)
      decreases left
    {
      var s :| s in left;
      left := left - {s};
      if Declared(m, s) {
        var checked := ValidateOdooConf(OverlayConf(m, s), s);
        if checked.Err? {
          return Err(Frozen(s, checked.error));
        }
      }
    }
    r := Ok(());
  }

  method ValidateEffectiveSlices(m: Manifest) returns (r: Result<(), Rejection>)
    ensures r.Ok? <==> forall s | s in SCENARIOS :: OptionKeys(EffectiveConf(m, s)) !! FrozenKeys(s)
  {
    hide EffectiveConf, OptionKeys, FrozenKeys;
    for i := 0 to |SCENARIOS|
      invariant forall j | 0 <= j < i :: OptionKeys(EffectiveConf(m, SCENARIOS[j])) !! FrozenKeys(SCENARIOS[j])
    {
      var effective := ResolveEffectiveConf(m, SCENARIOS[i]);
      var checked := ValidateOdooConf(effective, SCENARIOS[i]);
      if checked.Err? {
        return Err(Frozen(SCENARIOS[i], checked.error));
      }
    }
    r := Ok(());
  }

  /** The `odoo_conf` checks of `validate_scenario_manifest`. */
  method ValidateScenarioManifest(m: Manifest) returns (r: Result<(), Rejection>)
    ensures r.Ok? <==> Accepted(m)
  {
    if !m.schemaV2 {
      return if m.scenarios.Some? then Err(ScenariosNeedV2) else Ok(());
    }
    var scenario := if m.scenarios.Some? then CI else DEVELOPER;
    var root := ValidateOdooConf(OptionalConf(m.odooConf), scenario);
    if root.Err? {
      return Err(Frozen(scenario, root.error));
    }
    if m.scenarios.None? {
      return Ok(());
    }
    r := ValidateDeclaredOverlays(m);
    if r.Ok? {
      r := ValidateEffectiveSlices(m);
    }
  }

  // ---- The modular condition --------------------------------------------------------------------------------------------

  /** The conf gives the option a value other than null. */
  predicate HasValue(conf: Option<Conf>, key: string) {
    key in OptionKeys(conf) && conf.value[OPTIONS].values[key].Some?
  }

  lemma StrippedScenarios()
    ensures Strip(CI) == CI && Strip(DEVELOPER) == DEVELOPER && Strip(SERVER) == SERVER
    ensures FrozenKeys(CI) == GLOBAL_FROZEN
    ensures FrozenKeys(DEVELOPER) == FrozenKeys(SERVER) == GLOBAL_FROZEN + DB_KEYS
  {
    StripIsStripped(CI);
    StripIsStripped(DEVELOPER);
    StripIsStripped(SERVER);
    assert DEVELOPER[0] != CI[0] && SERVER[0] != CI[0];
  }

  lemma FrozenOutsideCi(scenario: string)
    requires scenario in SCENARIOS && scenario != CI
    ensures scenario == DEVELOPER || scenario == SERVER
    ensures FrozenKeys(scenario) == GLOBAL_FROZEN + DB_KEYS
  {
    StrippedScenarios();
  }

  lemma SectionKeys(conf: Option<Conf>, key: string)
    ensures key in Get(ConfSections(conf), OPTIONS) <==> HasValue(conf, key)
  {
    if conf.Some? {
      NormalizedLookup(conf.value, OPTIONS, key);
    }
  }

  /** The options of an effective slice: what root or overlay give a value, or the root as written where the
      scenario is not declared. */
  lemma EffectiveKeys(m: Manifest, scenario: string, key: string)
    requires scenario in SCENARIOS
    ensures key in OptionKeys(EffectiveConf(m, scenario)) <==>
      if Declared(m, scenario) then HasValue(m.odooConf, key) || HasValue(OverlayConf(m, scenario), key)
      else key in OptionKeys(m.odooConf)
  {
    if Declared(m, scenario) {
      var base, overlay := OptionalConf(m.odooConf), OverlayConf(m, scenario);
      var merged := Merged(ConfSections(base), ConfSections(overlay));
      SectionKeys(base, key);
      SectionKeys(overlay, key);
      AsConfKeys(merged);
    }
  }

  /** Root and overlays checked each on its own: the root has no globally frozen key; a database key only as null,
      and only if developer and server overlays are declared; no overlay has a key frozen for its own scenario. */
  predicate Modular(m: Manifest)
    requires m.scenarios.Some?
  {
    && OptionKeys(m.odooConf) !! GLOBAL_FROZEN
    && (forall k | k in OptionKeys(m.odooConf) * DB_KEYS :: !HasValue(m.odooConf, k) && Declared(m, DEVELOPER) && Declared(m, SERVER))
    && (forall s | s in m.scenarios.value && Declared(m, s) :: OptionKeys(OverlayConf(m, s)) !! FrozenKeys(s))
  }

  lemma EffectiveFollows(m: Manifest, scenario: string)
    requires m.scenarios.Some? && Modular(m) && scenario in SCENARIOS
    ensures OptionKeys(EffectiveConf(m, scenario)) !! FrozenKeys(scenario)
  {
    forall k | k in OptionKeys(EffectiveConf(m, scenario)) ensures k !in FrozenKeys(scenario) {
      EffectiveKeys(m, scenario, k);
      if Declared(m, scenario) && HasValue(OverlayConf(m, scenario), k) {
        OverlayAllows(m, scenario);
      } else {
        RootAllows(m, scenario, k);
      }
    }
  }

  lemma OverlayAllows(m: Manifest, scenario: string)
    requires m.scenarios.Some? && Modular(m) && Declared(m, scenario)
    ensures OptionKeys(OverlayConf(m, scenario)) !! FrozenKeys(scenario)
  {
    hide OptionKeys, FrozenKeys, OverlayConf;
    assert scenario in m.scenarios.value;
  }

  lemma RootAllows(m: Manifest, scenario: string, k: string)
    requires m.scenarios.Some? && Modular(m) && scenario in SCENARIOS && k in OptionKeys(m.odooConf)
    requires Declared(m, scenario) ==> HasValue(m.odooConf, k)
    ensures k !in FrozenKeys(scenario)
  {
    hide OverlayConf, Strip;
    StrippedScenarios();
    if scenario != CI {
      FrozenOutsideCi(scenario);
    }
    assert k in DB_KEYS ==> k in OptionKeys(m.odooConf) * DB_KEYS;
  }

  lemma RootDatabaseKeys(m: Manifest, k: string)
    requires m.schemaV2 && m.scenarios.Some? && Accepted(m) && k in OptionKeys(m.odooConf) * DB_KEYS
    ensures !HasValue(m.odooConf, k) && Declared(m, DEVELOPER) && Declared(m, SERVER)
  {
    StrippedScenarios();
    EffectiveKeys(m, DEVELOPER, k);
    EffectiveKeys(m, SERVER, k);
    assert DEVELOPER in SCENARIOS && SERVER in SCENARIOS;
  }

  /** Checking root, overlays and effective slices of a multi-scenario manifest accepts exactly what the modular
      condition accepts: the effective slices add nothing but the rule for null database keys in the root. */
  lemma AcceptedExactlyWhenModular(m: Manifest)
    requires m.schemaV2 && m.scenarios.Some?
    ensures Accepted(m) <==> Modular(m)
  {
    StrippedScenarios();
    assert OptionKeys(OptionalConf(m.odooConf)) == OptionKeys(m.odooConf);
    if Accepted(m) {
      forall k | k in OptionKeys(m.odooConf) * DB_KEYS ensures !HasValue(m.odooConf, k) && Declared(m, DEVELOPER) && Declared(m, SERVER) {
        RootDatabaseKeys(m, k);
      }
    }
    if Modular(m) {
      forall s | s in SCENARIOS ensures OptionKeys(EffectiveConf(m, s)) !! FrozenKeys(s) {
        EffectiveFollows(m, s);
      }
    }
  }

  /** Without null values the condition is plainly modular: no frozen key at the root, none in an overlay that its
      own scenario freezes. */
  lemma AcceptedWithoutNulls(m: Manifest)
    requires m.schemaV2 && m.scenarios.Some?
    requires forall k | k in OptionKeys(m.odooConf) :: HasValue(m.odooConf, k)
    ensures Accepted(m) <==>
      && OptionKeys(m.odooConf) !! GLOBAL_FROZEN + DB_KEYS
      && (forall s | s in m.scenarios.value && Declared(m, s) :: OptionKeys(OverlayConf(m, s)) !! FrozenKeys(s))
  {
    AcceptedExactlyWhenModular(m);
  }

  /** In an accepted multi-scenario manifest a database option reaches an effective configuration only in scenario
      `ci`, and only with the value the `ci` overlay gives it. */
  lemma DatabaseOptionsOnlyFromCi(m: Manifest, scenario: string, k: string)
    requires m.schemaV2 && m.scenarios.Some? && Accepted(m) && scenario in SCENARIOS && k in DB_KEYS
    requires HasValue(EffectiveConf(m, scenario), k)
    ensures scenario == CI && Declared(m, CI) && HasValue(OverlayConf(m, CI), k)
    ensures EffectiveConf(m, CI).value[OPTIONS].values[k] == OverlayConf(m, CI).value[OPTIONS].values[k]
  {
    DatabaseKeyMeansCi(m, scenario, k);
    AcceptedExactlyWhenModular(m);
    CiValueFromOverlay(m, k);
    CiValue(m, k);
  }

  lemma DatabaseKeyMeansCi(m: Manifest, scenario: string, k: string)
    requires m.schemaV2 && m.scenarios.Some? && Accepted(m) && scenario in SCENARIOS && k in DB_KEYS
    requires HasValue(EffectiveConf(m, scenario), k)
    ensures scenario == CI
  {
    hide EffectiveConf, OverlayConf, FrozenKeys, Strip;
    if scenario != CI {
      FrozenOutsideCi(scenario);
    }
  }

  lemma CiValueFromOverlay(m: Manifest, k: string)
    requires m.scenarios.Some? && Modular(m) && k in DB_KEYS && HasValue(EffectiveConf(m, CI), k)
    ensures Declared(m, CI) && HasValue(OverlayConf(m, CI), k)
  {
    EffectiveKeys(m, CI, k);
    assert !HasValue(m.odooConf, k) by {
      if k in OptionKeys(m.odooConf) {
        assert k in OptionKeys(m.odooConf) * DB_KEYS;
      }
    }
  }

  lemma CiValue(m: Manifest, k: string)
    requires Declared(m, CI) && HasValue(OverlayConf(m, CI), k) && HasValue(EffectiveConf(m, CI), k)
    ensures EffectiveConf(m, CI).value[OPTIONS].values[k] == OverlayConf(m, CI).value[OPTIONS].values[k]
  {
    var base, overlay := OptionalConf(m.odooConf), OverlayConf(m, CI);
    SectionKeys(overlay, k);
    MergedLookup(ConfSections(base), ConfSections(overlay), OPTIONS, k);
  }

  /** A null database key at the root passes as soon as developer and server overlays exist, even empty ones, and not
      with one of them alone. */
  lemma NullDatabaseKeyPasses(key: string)
    requires key in DB_KEYS
    ensures Accepted(NullKeyManifest(key, map[DEVELOPER := Some(Overlay(None)), SERVER := Some(Overlay(None))]))
    ensures !Accepted(NullKeyManifest(key, map[SERVER := Some(Overlay(None))]))
    ensures !Accepted(NullKeyManifest(key, map[DEVELOPER := Some(Overlay(None))]))
  {
    hide Accepted, NullKeyManifest;
    NullKeyModular(key, map[DEVELOPER := Some(Overlay(None)), SERVER := Some(Overlay(None))]);
    NullKeyModular(key, map[SERVER := Some(Overlay(None))]);
    NullKeyModular(key, map[DEVELOPER := Some(Overlay(None))]);
    assert DEVELOPER[0] != SERVER[0];
  }

  function NullKeyManifest(key: string, overlays: map<string, Option<Overlay>>): Manifest {
    Manifest(true, Some(map[OPTIONS := Options(map[key := None])]), Some(overlays))
  }

  lemma NullKeyModular(key: string, overlays: map<string, Option<Overlay>>)
    requires key in DB_KEYS && forall s | s in overlays :: overlays[s] == Some(Overlay(None))
    ensures Accepted(NullKeyManifest(key, overlays)) <==> DEVELOPER in overlays && SERVER in overlays
  {
    hide Accepted, FrozenKeys;
    var m := NullKeyManifest(key, overlays);
    AcceptedExactlyWhenModular(m);
    assert OptionKeys(m.odooConf) == {key};
    assert key in OptionKeys(m.odooConf) * DB_KEYS;
  }
}
