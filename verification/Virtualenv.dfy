/** The fresh-venv checker that runs inside the container: a stamped extras lock lets a run skip the package sync
    (inside_docker_app/check_virtualenv.py, inside_docker_app/extras_sync.py, config/payload.py, bake_venv.py).
    Distribution names are those of PEP 503, "Normalized Names". */
module Virtualenv {
  import opened Results
  import opened Text
  import opened Sequences
  import opened Ordering

  // ---- State -----------------------------------------------------------------------------------------------

  /** The extras lock: the stamp of the requirements it was written for, and the distributions they manage. The
      stamp is a hash of the sorted requirement lines; the lines stand for it. */
  datatype ExtrasLock = ExtrasLock(stamp: seq<string>, distributions: seq<string>)

  /** Installed distributions, the content of `.lock`, the extras lock; none of the two where a file is missing or
      cannot be read. */
  datatype Venv = Venv(installed: set<string>, lock: Option<string>, extras: Option<ExtrasLock>)

  datatype Config = Config(hash: string, requirements: seq<string>)

  /** The outside world: the distribution a requirement line names (none for a line that does not parse), what pip
      installs for a line that does not parse, such as a direct URL (none where pip refuses it, too), the packages a
      fresh venv gets for a lock hash, and those the import smoke test needs. */
  datatype Environment = Environment(nameOf: string -> Option<string>, unparsed: string -> Option<string>,
                                     base: string -> set<string>, required: set<string>)

  /** Where a run may be cut short, and what has happened by then. */
  datatype Fault =
    | NoFault
    | Uninstalling(removed: set<string>)
    | Installing(added: set<string>)
    | WritingExtras(kept: bool)
    | Deleting(left: set<string>, lockLeft: bool, extrasLeft: bool)
    | Creating(created: set<string>)

  datatype Outcome = Outcome(venv: Venv, ok: bool)

  // ---- Requirements ------------------------------------------------------------------------------------------

  /** `compute_extras_stamp` before hashing. */
  function Stamp(requirements: seq<string>): seq<string> {
    Sort(StringLeq, Clean(requirements))
  }

  function NamesOf(env: Environment, lines: seq<string>): Option<seq<string>> {
    if lines == [] then Some([])
    else
      var rest := NamesOf(env, lines[1..]);
      if env.nameOf(lines[0]).Some? && rest.Some? then Some([env.nameOf(lines[0]).value] + rest.value) else None
  }

  /** `managed_distribution_names`: `sorted(set(names))`, none where a line does not parse. */
  function ManagedNames(env: Environment, requirements: seq<string>): Option<seq<string>> {
    match NamesOf(env, Clean(requirements))
    case Some(names) => Some(Sort(StringLeq, Extend([], names)))
    case None => None
  }

  /** The managed distributions as a set. */
  function Managed(env: Environment, config: Config): set<string> {
    match ManagedNames(env, config.requirements) case Some(names) => Elements(names) case None => {}
  }

  predicate Parses(env: Environment, config: Config) {
    ManagedNames(env, config.requirements).Some?
  }

  /** What pip installs for a line. */
  function PipInstalls(env: Environment, line: string): Option<string> {
    if env.nameOf(line).Some? then env.nameOf(line) else env.unparsed(line)
  }

  /** What pip has installed of the lines when it is through with them or refuses one, and whether it got through. */
  function Extras(env: Environment, lines: seq<string>): (set<string>, bool) {
    if lines == [] then ({}, true)
    else
      var (added, all) := Extras(env, lines[..|lines| - 1]);
      match PipInstalls(env, lines[|lines| - 1])
      case Some(name) => (if all then added + {name} else added, all)
      case None => (added, false)
  }

  /** `read_extras_lock` strips the names and drops blank ones. */
  function Previous(v: Venv): set<string> {
    match v.extras case Some(e) => Elements(Clean(e.distributions)) case None => {}
  }

  // ---- One run -----------------------------------------------------------------------------------------------------

  /** `_venv_lock_matches` */
  predicate LockMatches(v: Venv, config: Config) {
    v.lock.Some? && Strip(v.lock.value) != "" && config.hash == Strip(v.lock.value)
  }

  /** `_extras_lock_matches` */
  predicate ExtrasMatch(v: Venv, config: Config) {
    v.extras.Some? && v.extras.value.stamp == Stamp(config.requirements)
  }

  function NewExtras(env: Environment, config: Config): ExtrasLock
    requires Parses(env, config)
  {
    ExtrasLock(Stamp(config.requirements), ManagedNames(env, config.requirements).value)
  }

  /** `sync_extras_requirements` behind its fast path. */
  function FullSync(env: Environment, config: Config, v: Venv, fault: Fault): Outcome {
    if !Parses(env, config) then Outcome(v, false)
    else
      var names, toRemove := Managed(env, config), Previous(v) - Managed(env, config);
      if fault.Uninstalling? && toRemove != {} then Outcome(v.(installed := v.installed - fault.removed * toRemove), false)
      else if fault.Installing? && Clean(config.requirements) != []
      then Outcome(v.(installed := v.installed - toRemove + fault.added * names), false)
      else if fault.WritingExtras?
      then Outcome(Venv(v.installed - toRemove + names, v.lock, if fault.kept then v.extras else None), false)
      else Outcome(Venv(v.installed - toRemove + names, v.lock, Some(NewExtras(env, config))), true)
  }

  /** `sync_extras_requirements` */
  function Synced(env: Environment, config: Config, v: Venv, fault: Fault): Outcome {
    if ExtrasMatch(v, config) then Outcome(v, true) else FullSync(env, config, v, fault)
  }

  /** A freshly built venv. */
  function Fresh(env: Environment, config: Config): Venv
    requires Parses(env, config)
  {
    Venv(env.base(config.hash) + Managed(env, config), Some(config.hash), Some(NewExtras(env, config)))
  }

  /** `recreate_uv_venv`: `.lock` is written before the extras lock, and so before a line that pip accepts is found not
      to parse. */
  function Recreated(env: Environment, config: Config, v: Venv, fault: Fault): Outcome {
    if fault.Deleting?
    then Outcome(Venv(v.installed * fault.left, if fault.lockLeft then v.lock else None, if fault.extrasLeft then v.extras else None), false)
    else if fault.Creating? then Outcome(Venv(fault.created, None, None), false)
    else if !Parses(env, config) then
      var (added, all) := Extras(env, Clean(config.requirements));
      Outcome(Venv(env.base(config.hash) + added, if all then Some(config.hash) else None, None), false)
    else if fault.WritingExtras? then Outcome(Fresh(env, config).(extras := None), false)
    else Outcome(Fresh(env, config), true)
  }

  /** `verify_venv_import_smoke` */
  predicate Smoke(env: Environment, v: Venv) {
    env.required <= v.installed
  }

  function FirstPass(env: Environment, config: Config, v: Venv, fault: Fault): Outcome {
    if LockMatches(v, config) then Synced(env, config, v, fault) else Recreated(env, config, v, fault)
  }

  /** `ensure_fresh_venv`; `first` and `second` are the faults of the first pass and of the rebuild after a failed
      smoke test. */
  function Ensured(env: Environment, config: Config, v: Venv, first: Fault, second: Fault): Outcome {
    var pass := FirstPass(env, config, v, first);
    if !pass.ok || Smoke(env, pass.venv) then pass
    else
      var rebuilt := Recreated(env, config, pass.venv, second);
      Outcome(rebuilt.venv, rebuilt.ok && Smoke(env, rebuilt.venv))
  }

  // ---- The checker -------------------------------------------------------------------------------------------------------

  class VirtualenvChecker {
    const env: Environment
    const config: Config
    var installed: set<string>
    var lock: Option<string>
    var extras: Option<ExtrasLock>

    constructor (env: Environment, config: Config, v: Venv)
      ensures this.env == env && this.config == config && View() == v
    {
      this.env, this.config := env, config;
      installed, lock, extras := v.installed, v.lock, v.extras;
    }

    function View(): Venv
      reads this
    {
      Venv(installed, lock, extras)
    }

    method WriteExtrasLock()
      requires Parses(env, config)
      modifies this`extras
      ensures extras == Some(NewExtras(env, config))
    {
      extras := Some(ExtrasLock(Stamp(config.requirements), ManagedNames(env, config.requirements).value));
    }

    method SyncExtrasRequirements(fault: Fault) returns (ok: bool)
      modifies this
      ensures Outcome(View(), ok) == Synced(env, config, old(View()), fault)
    {
      if ExtrasMatch(View(), config) {
        return true;
      }
      var names := ManagedNames(env, config.requirements);
      if names.None? {
        return false;
      }
      var current := Elements(names.value);
      var toRemove := Previous(View()) - current;
      if toRemove != {} {
        if fault.Uninstalling? {
          installed := installed - fault.removed * toRemove;
          return false;
        }
        installed := installed - toRemove;
      }
      if Clean(config.requirements) != [] {
        if fault.Installing? {
          installed := installed + fault.added * current;
          return false;
        }
        installed := installed + current;
      } else {
        NothingManaged(env, config);
      }
      if fault.WritingExtras? {
        extras := if fault.kept then extras else None;
        return false;
      }
      WriteExtrasLock();
      ok := true;
    }

    /** `install_extra_packages`: stops at the first line that pip refuses. */
    method InstallExtraPackages() returns (ok: bool)
      modifies this`installed
      ensures (installed, ok) == (old(installed) + Extras(env, Clean(config.requirements)).0, Extras(env, Clean(config.requirements)).1)
    {
      var lines := Clean(config.requirements);
      for i := 0 to |lines|
        invariant Extras(env, lines[..i]).1 && installed == old(installed) + Extras(env, lines[..i]).0
      {
        assert lines[..i + 1][..i] == lines[..i];
        var name := PipInstalls(env, lines[i]);
        if name.None? {
          ExtrasStop(env, lines, i + 1);
          return false;
        }
        installed := installed + {name.value};
      }
      assert lines[..|lines|] == lines;
      ok := true;
    }

    method RecreateVenv(fault: Fault) returns (ok: bool)
      modifies this
      ensures Outcome(View(), ok) == Recreated(env, config, old(View()), fault)
    {
      if fault.Deleting? {
        installed := installed * fault.left;
        lock := if fault.lockLeft then lock else None;
        extras := if fault.extrasLeft then extras else None;
        return false;
      }
      installed, lock, extras := {}, None, None;
      if fault.Creating? {
        installed := fault.created;
        return false;
      }
      ExtrasAreManaged(env, config);
      installed := env.base(config.hash);
      ok := InstallExtraPackages();
      if !ok {
        return;
      }
      lock := Some(config.hash);
      if !Parses(env, config) || fault.WritingExtras? {
        return false;
      }
      WriteExtrasLock();
      ok := true;
    }

    method EnsureFreshVenv(first: Fault, second: Fault) returns (ok: bool)
      modifies this
      ensures Outcome(View(), ok) == Ensured(env, config, old(View()), first, second)
    {
      if !LockMatches(View(), config) {
        ok := RecreateVenv(first);
      } else {
        ok := SyncExtrasRequirements(first);
      }
      if !ok || Smoke(env, View()) {
        return;
      }
      ok := RecreateVenv(second);
      ok := ok && Smoke(env, View());
    }
  }

  lemma {:induction false} ExtrasStop(env: Environment, lines: seq<string>, i: nat)
    requires i <= |lines| && !Extras(env, lines[..i]).1
    ensures Extras(env, lines) == Extras(env, lines[..i])
    decreases |lines| - i
  {
    if i == |lines| {
      assert lines[..i] == lines;
    } else {
      assert lines[..i + 1][..i] == lines[..i];
      ExtrasStop(env, lines, i + 1);
    }
  }

  lemma {:induction false} ExtrasMembers(env: Environment, lines: seq<string>, x: string)
    ensures Extras(env, lines).1 <==> forall line | line in lines :: PipInstalls(env, line).Some?
    ensures Extras(env, lines).1 ==> (x in Extras(env, lines).0 <==> exists line :: line in lines && PipInstalls(env, line) == Some(x))
  {
    hide PipInstalls;
    if lines != [] {
      var init, last := lines[..|lines| - 1], lines[|lines| - 1];
      assert lines == init + [last];
      ExtrasMembers(env, init, x);
    }
  }

  lemma ParsedExtras(env: Environment, lines: seq<string>, x: string)
    requires NamesOf(env, lines).Some?
    ensures Extras(env, lines).1 && (x in Extras(env, lines).0 <==> x in NamesOf(env, lines).value)
  {
    hide NamesOf, Extras;
    NamesOfMembers(env, lines, x);
    ExtrasMembers(env, lines, x);
    forall line | line in lines ensures PipInstalls(env, line) == env.nameOf(line) && PipInstalls(env, line).Some? {
    }
  }

  /** Of requirements that parse, pip installs the managed distributions. */
  lemma ExtrasAreManaged(env: Environment, config: Config)
    ensures Parses(env, config) ==> Extras(env, Clean(config.requirements)) == (Managed(env, config), true)
  {
    hide NamesOf, Extras, Clean, Sort, Extend;
    if Parses(env, config) {
      var lines := Clean(config.requirements);
      var names := NamesOf(env, lines).value;
      SortedSet(names);
      ParsedExtras(env, lines, "");
      forall x ensures x in Extras(env, lines).0 <==> x in Managed(env, config) {
        ParsedExtras(env, lines, x);
      }
      assert Extras(env, lines).0 == Managed(env, config);
    }
  }

  lemma NothingManaged(env: Environment, config: Config)
    requires Clean(config.requirements) == []
    ensures Managed(env, config) == {}
  {
  }

  // ---- The stamp determines the managed distributions ---------------------------------------------------------------

  lemma {:induction false} NamesOfMembers(env: Environment, lines: seq<string>, x: string)
    ensures NamesOf(env, lines).Some? <==> forall line | line in lines :: env.nameOf(line).Some?
    ensures NamesOf(env, lines).Some? ==> (x in NamesOf(env, lines).value <==> exists line :: line in lines && env.nameOf(line) == Some(x))
  {
    if lines != [] {
      assert lines == [lines[0]] + lines[1..];
      NamesOfMembers(env, lines[1..], x);
    }
  }

  lemma SameStampSameLines(a: seq<string>, b: seq<string>, line: string)
    requires Stamp(a) == Stamp(b)
    ensures line in Clean(a) <==> line in Clean(b)
  {
    SortMembers(StringLeq, Clean(a), line);
    SortMembers(StringLeq, Clean(b), line);
  }

  /** Requirements with the same stamp manage the same distributions. */
  lemma StampDeterminesNames(env: Environment, a: seq<string>, b: seq<string>)
    requires Stamp(a) == Stamp(b)
    ensures ManagedNames(env, a) == ManagedNames(env, b)
  {
    forall line ensures line in Clean(a) <==> line in Clean(b) {
      SameStampSameLines(a, b, line);
    }
    NamesOfMembers(env, Clean(a), "");
    NamesOfMembers(env, Clean(b), "");
    if NamesOf(env, Clean(a)).Some? {
      forall x ensures x in NamesOf(env, Clean(a)).value <==> x in NamesOf(env, Clean(b)).value {
        NamesOfMembers(env, Clean(a), x);
        NamesOfMembers(env, Clean(b), x);
      }
      SameMembersSameSorted(NamesOf(env, Clean(a)).value, NamesOf(env, Clean(b)).value);
    }
  }

  /** Canonical names are not blank and carry no white space around them. */
  ghost predicate WellNamed(env: Environment) {
    forall line :: env.nameOf(line).Some? ==> env.nameOf(line).value != "" && IsStripped(env.nameOf(line).value)
  }

  /** Reading the extras lock gives back the distributions that were written. */
  lemma PreviousOfNew(env: Environment, config: Config, v: Venv)
    requires WellNamed(env) && Parses(env, config) && v.extras == Some(NewExtras(env, config))
    ensures Previous(v) == Managed(env, config)
  {
    var names := NamesOf(env, Clean(config.requirements)).value;
    var written := ManagedNames(env, config.requirements).value;
    SortedSet(names);
    forall i | 0 <= i < |written| ensures written[i] != "" && IsStripped(written[i]) {
      assert written[i] in names;
      NamesOfMembers(env, Clean(config.requirements), written[i]);
    }
    CleanFixed(written);
  }

  // ---- Successful runs ---------------------------------------------------------------------------------------------------

  /** Skipping on a matching stamp gives what the full sync gives exactly when no managed distribution was removed
      by hand. */
  lemma FastPathAgreesExactlyWhen(env: Environment, before: Config, config: Config, v: Venv)
    requires WellNamed(env) && Parses(env, before) && v.extras == Some(NewExtras(env, before)) && ExtrasMatch(v, config)
    ensures FullSync(env, config, v, NoFault) == Synced(env, config, v, NoFault) <==> Managed(env, config) <= v.installed
  {
    StampDeterminesNames(env, before.requirements, config.requirements);
    PreviousOfNew(env, before, v);
    assert Previous(v) - Managed(env, config) == {};
    assert Managed(env, config) <= v.installed ==> v.installed - {} + Managed(env, config) == v.installed;
  }

  /** Moving from one set of requirements to another reaches the state of a fresh build exactly when no distribution
      that is dropped belongs to the base packages. */
  lemma SyncReachesFreshExactlyWhen(env: Environment, before: Config, config: Config)
    requires WellNamed(env) && Parses(env, before) && Parses(env, config) && config.hash == before.hash
    ensures Synced(env, config, Fresh(env, before), NoFault) == Outcome(Fresh(env, config), true) <==>
      env.base(config.hash) !! (Managed(env, before) - Managed(env, config))
  {
    var v := Fresh(env, before);
    PreviousOfNew(env, before, v);
    if ExtrasMatch(v, config) {
      StampDeterminesNames(env, before.requirements, config.requirements);
      assert Managed(env, before) - Managed(env, config) == {};
    } else {
      var base, dropped := env.base(config.hash), Managed(env, before) - Managed(env, config);
      SyncedSet(base, Managed(env, before), Managed(env, config));
    }
  }

  lemma SyncedSet(base: set<string>, before: set<string>, names: set<string>)
    ensures base + before - (before - names) + names == base + names <==> base !! (before - names)
  {
    var synced := base + before - (before - names) + names;
    if x :| x in base && x in before - names {
      assert x in base + names && x !in synced;
    }
  }

  /** The configuration parses, its hash is stripped, and its extras are neither base packages nor smoke-tested. */
  ghost predicate WellFormed(env: Environment, config: Config) {
    && Parses(env, config) && IsStripped(config.hash)
    && env.base(config.hash) !! Managed(env, config) && env.required !! Managed(env, config)
  }

  /** Never built, or as left by the last successful run. */
  ghost predicate LeftBy(env: Environment, v: Venv, before: Config) {
    v.lock.None? || (WellFormed(env, before) && v == Fresh(env, before))
  }

  lemma RunReachesFresh(env: Environment, before: Config, config: Config, v: Venv)
    requires WellNamed(env) && LeftBy(env, v, before) && WellFormed(env, config)
    ensures var run := Ensured(env, config, v, NoFault, NoFault); run.venv == Fresh(env, config) && run.ok == Smoke(env, run.venv)
  {
    if LockMatches(v, config) {
      StripIsStripped(before.hash);
      SyncReachesFreshExactlyWhen(env, before, config);
    }
  }

  // ---- Interrupted runs -----------------------------------------------------------------------------------------------------

  /** An interrupted sync leaves a state from which the sync still reaches its goal. */
  lemma InterruptedSyncRecovers(env: Environment, config: Config, v: Venv, fault: Fault)
    requires Parses(env, config) && !ExtrasMatch(v, config)
    ensures var cut := FullSync(env, config, v, fault);
      !cut.ok ==>
        && FullSync(env, config, cut.venv, NoFault) == FullSync(env, config, v, NoFault)
        && !ExtrasMatch(cut.venv, config) && cut.venv.lock == v.lock
  {
    var names, toRemove := Managed(env, config), Previous(v) - Managed(env, config);
    if fault.Uninstalling? {
      assert v.installed - fault.removed * toRemove - toRemove + names == v.installed - toRemove + names;
    } else if fault.Installing? {
      assert v.installed - toRemove + fault.added * names - toRemove + names == v.installed - toRemove + names;
    } else if fault.WritingExtras? {
      var cut := FullSync(env, config, v, fault).venv;
      assert Previous(cut) - names == if fault.kept then toRemove else {};
      assert v.installed - toRemove + names - toRemove + names == v.installed - toRemove + names;
    }
  }

  /** The sync that follows an interrupted deletion, with `.lock` left and the extras lock gone, puts back what the
      smoke test needs. */
  predicate Revived(env: Environment, config: Config, v: Venv, fault: Fault) {
    && fault.Deleting? && fault.lockLeft && !fault.extrasLeft && LockMatches(v, config)
    && env.required <= v.installed * fault.left + Managed(env, config)
  }

  /** Otherwise a rebuild that failed to delete everything still fails the smoke test and is rebuilt. */
  lemma InterruptedRebuildRecovers(env: Environment, config: Config, v: Venv, fault: Fault)
    requires Parses(env, config) && !Smoke(env, v) && ExtrasMatch(v, config) && !Revived(env, config, v, fault)
    ensures var cut := Recreated(env, config, v, fault);
      Ensured(env, config, cut.venv, NoFault, NoFault) == Outcome(Fresh(env, config), Smoke(env, Fresh(env, config)))
  {
    var cut := Recreated(env, config, v, fault).venv;
    if LockMatches(cut, config) {
      var pass := FirstPass(env, config, cut, NoFault);
      if fault.Deleting? {
        assert !Smoke(env, pass.venv) by {
          if fault.extrasLeft {
            var x :| x in env.required && x !in v.installed;
            assert x !in pass.venv.installed;
          }
        }
      } else {
        assert pass.venv == Fresh(env, config) by {
          if cut.extras.None? {
            assert cut.installed + Managed(env, config) == cut.installed;
          }
        }
      }
    }
  }

  /** A revived venv is kept as it is. */
  lemma RevivedIsKept(env: Environment, config: Config, v: Venv, fault: Fault)
    requires Parses(env, config) && !Smoke(env, v) && Revived(env, config, v, fault)
    ensures var cut := Recreated(env, config, v, fault);
      Ensured(env, config, cut.venv, NoFault, NoFault) ==
        Outcome(Venv(v.installed * fault.left + Managed(env, config), v.lock, Some(NewExtras(env, config))), true)
  {
    var cut := Recreated(env, config, v, fault).venv;
    assert Previous(cut) == {};
    assert cut.installed - {} + Managed(env, config) == v.installed * fault.left + Managed(env, config);
  }

  /** A run on the fast path whose rebuild is cut short while deleting, and which comes back to life short of a fresh
      build. */
  predicate LostByDeletion(env: Environment, config: Config, v: Venv, second: Fault) {
    && ExtrasMatch(v, config) && !Smoke(env, v) && Revived(env, config, v, second)
    && !(v.lock == Some(config.hash)
         && v.installed * second.left + Managed(env, config) == env.base(config.hash) + Managed(env, config))
  }

  /** Running again with the same requirements after a run that was cut short ends as if nothing had happened (same
      installed packages, same locks, same verdict) if and only if the venv is not lost by deletion. */
  lemma RunRecoversExactlyWhen(env: Environment, config: Config, v: Venv, first: Fault, second: Fault)
    requires Parses(env, config)
    ensures Ensured(env, config, Ensured(env, config, v, first, second).venv, NoFault, NoFault) == Ensured(env, config, v, NoFault, NoFault)
      <==> !LostByDeletion(env, config, v, second)
  {
    var pass := FirstPass(env, config, v, first);
    if LockMatches(v, config) && !ExtrasMatch(v, config) {
      InterruptedSyncRecovers(env, config, v, first);
    }
    if pass.ok && !Smoke(env, pass.venv) {
      if Revived(env, config, pass.venv, second) {
        RevivedOnFastPath(env, config, v, first, second);
        RevivedIsKept(env, config, v, second);
      } else {
        InterruptedRebuildRecovers(env, config, pass.venv, second);
      }
    }
  }

  /** Only a run on the fast path can be revived: any other has all managed distributions installed. */
  lemma RevivedOnFastPath(env: Environment, config: Config, v: Venv, first: Fault, second: Fault)
    requires Parses(env, config)
    requires var pass := FirstPass(env, config, v, first); pass.ok && !Smoke(env, pass.venv) && Revived(env, config, pass.venv, second)
    ensures LockMatches(v, config) && ExtrasMatch(v, config) && FirstPass(env, config, v, first).venv == v
  {
    var pass := FirstPass(env, config, v, first);
    var x :| x in env.required && x !in pass.venv.installed;
    assert x in Managed(env, config);
  }

  /** So a venv that the smoke test does not need the extras for always recovers. */
  lemma RunRecovers(env: Environment, config: Config, v: Venv, first: Fault, second: Fault)
    requires Parses(env, config) && env.required !! Managed(env, config)
    ensures Ensured(env, config, Ensured(env, config, v, first, second).venv, NoFault, NoFault) ==
      Ensured(env, config, v, NoFault, NoFault)
  {
    hide Ensured, ExtrasMatch, LockMatches, Parses, Managed;
    RunRecoversExactlyWhen(env, config, v, first, second);
  }

  /** The condition matters: with an extra that the smoke test needs, a deletion cut short can leave a venv without its
      base packages that the next run takes for good. */
  lemma SmokeTestedExtraLost(env: Environment, config: Config, name: string)
    requires Parses(env, config) && IsStripped(config.hash) && config.hash != ""
    requires Managed(env, config) == env.required == {name} && name !in env.base(config.hash)
    ensures var v := Venv(env.base(config.hash), Some(config.hash), Some(NewExtras(env, config)));
      var run := Ensured(env, config, Ensured(env, config, v, NoFault, Deleting({}, true, false)).venv, NoFault, NoFault);
      run.ok && run.venv.installed == {name} && Ensured(env, config, v, NoFault, NoFault) == Outcome(Fresh(env, config), true)
  {
    var v := Venv(env.base(config.hash), Some(config.hash), Some(NewExtras(env, config)));
    StripIsStripped(config.hash);
    assert !Smoke(env, v);
    RevivedIsKept(env, config, v, Deleting({}, true, false));
  }

  // ---- Requirements that do not parse --------------------------------------------------------------------------------------

  /** With a line that does not parse a run succeeds only on the fast path: no run that gets to read the requirements
      ever does. */
  lemma UnparsedRunExactlyWhen(env: Environment, config: Config, v: Venv, first: Fault, second: Fault)
    requires !Parses(env, config)
    ensures Ensured(env, config, v, first, second).ok <==> LockMatches(v, config) && ExtrasMatch(v, config) && Smoke(env, v)
  {
  }

  /** After a rebuild that failed on such a line, the next run with requirements that do parse ends as a fresh build if
      and only if pip refused some line, so that everything is rebuilt, or all it installed is wanted. */
  lemma AfterUnparsedExactlyWhen(env: Environment, config: Config, v: Venv, next: Config)
    requires !Parses(env, config) && !LockMatches(v, config) && WellFormed(env, next)
    requires next.hash == config.hash != "" && env.required <= env.base(config.hash)
    ensures var (added, all) := Extras(env, Clean(config.requirements));
      Ensured(env, next, Ensured(env, config, v, NoFault, NoFault).venv, NoFault, NoFault) == Outcome(Fresh(env, next), true) <==>
        (all ==> added <= env.base(next.hash) + Managed(env, next))
  {
    var (added, all) := Extras(env, Clean(config.requirements));
    var base, wanted := env.base(next.hash), Managed(env, next);
    var cut := Ensured(env, config, v, NoFault, NoFault).venv;
    StripIsStripped(next.hash);
    if all {
      assert Previous(cut) == {};
      assert base + added - {} + wanted == base + wanted <==> added <= base + wanted by {
        if base + added - {} + wanted == base + wanted {
          forall x | x in added ensures x in base + wanted {
            assert x in base + added - {} + wanted;
          }
        }
      }
    }
  }

  // ---- Histories ---------------------------------------------------------------------------------------------------------------

  /** Runs with one configuration: some that may be cut short, then one that is not. */
  datatype Visit = Visit(config: Config, cuts: seq<(Fault, Fault)>)

  function AfterCuts(env: Environment, config: Config, v: Venv, cuts: seq<(Fault, Fault)>): Venv
    decreases |cuts|
  {
    if cuts == [] then v else AfterCuts(env, config, Ensured(env, config, v, cuts[0].0, cuts[0].1).venv, cuts[1..])
  }

  /** Visits in a row, as long as the last run of each succeeds. */
  function History(env: Environment, v: Venv, visits: seq<Visit>): Outcome
    decreases |visits|
  {
    if visits == [] then Outcome(v, true)
    else
      var config := visits[0].config;
      var run := Ensured(env, config, AfterCuts(env, config, v, visits[0].cuts), NoFault, NoFault);
      if run.ok then History(env, run.venv, visits[1..]) else run
  }

  lemma {:induction false} CutsRecover(env: Environment, config: Config, v: Venv, cuts: seq<(Fault, Fault)>)
    requires Parses(env, config) && env.required !! Managed(env, config)
    ensures Ensured(env, config, AfterCuts(env, config, v, cuts), NoFault, NoFault) == Ensured(env, config, v, NoFault, NoFault)
    decreases |cuts|
  {
    hide Ensured, Parses, Managed;
    if cuts != [] {
      RunRecovers(env, config, v, cuts[0].0, cuts[0].1);
      CutsRecover(env, config, Ensured(env, config, v, cuts[0].0, cuts[0].1).venv, cuts[1..]);
    }
  }

  /** Over any sequence of configurations, with any number of runs cut short on the way as long as each configuration
      is finished before the next, the venv ends as a fresh build of the latest one: base packages and its managed
      distributions, nothing else. */
  lemma {:induction false} HistoryEndsFresh(env: Environment, before: Config, v: Venv, visits: seq<Visit>)
    requires WellNamed(env) && LeftBy(env, v, before) && visits != []
    requires forall i | 0 <= i < |visits| :: WellFormed(env, visits[i].config)
    requires History(env, v, visits).ok
    ensures var latest := visits[|visits| - 1].config;
      WellFormed(env, latest) && History(env, v, visits).venv == Fresh(env, latest)
    decreases |visits|
  {
    hide Ensured, Managed, Parses, Fresh, Smoke, WellNamed;
    var config, rest := visits[0].config, visits[1..];
    CutsRecover(env, config, v, visits[0].cuts);
    RunReachesFresh(env, before, config, v);
    if rest != [] {
      assert rest[|rest| - 1] == visits[|visits| - 1];
      HistoryEndsFresh(env, config, Fresh(env, config), rest);
    }
  }

  // ---- Changing the requirements after an interrupted run ------------------------------------------------------------------------

  /** A run with `cut` on the venv that `before` left, then an uninterrupted one with `config`. */
  function AfterChange(env: Environment, before: Config, cut: Config, first: Fault, second: Fault, config: Config): Outcome
    requires Parses(env, before)
  {
    Ensured(env, config, Ensured(env, cut, Fresh(env, before), first, second).venv, NoFault, NoFault)
  }

  /** What an interrupted sync from `before` to `cut` must have left for a run with `config` to end right. With an
      unreadable extras lock nothing is uninstalled any more; with the old requirements nothing is done at all; with any
      others what was managed before is cleared away. */
  predicate EndsRight(env: Environment, before: Config, cut: Config, fault: Fault, config: Config) {
    var managed, interim, wanted := Managed(env, before), Managed(env, cut), Managed(env, config);
    var reverted := Stamp(config.requirements) == Stamp(before.requirements);
    match fault
    case Uninstalling(removed) => reverted ==> removed !! (managed - interim)
    case Installing(added) => if reverted then managed <= interim && added * interim <= managed else added * interim <= managed + wanted
    case WritingExtras(kept) =>
      if !kept then interim <= wanted else if reverted then managed == interim else interim <= managed + wanted
    case _ => true
  }

  /** Recovery needs the same requirements. After any interrupted sync, a run with whatever requirements ends as a fresh
      build of them if and only if the venv belongs to another lock hash, and so is rebuilt, or the interrupted sync left
      nothing that such a run overlooks. */
  lemma ChangedAfterCutExactlyWhen(env: Environment, before: Config, cut: Config, first: Fault, second: Fault, config: Config)
    requires WellNamed(env) && WellFormed(env, before) && WellFormed(env, cut) && WellFormed(env, config)
    requires before.hash == cut.hash != "" && env.required <= env.base(before.hash) && env.required <= env.base(config.hash)
    requires !Ensured(env, cut, Fresh(env, before), first, second).ok
    ensures AfterChange(env, before, cut, first, second, config) == Outcome(Fresh(env, config), true) <==>
      (config.hash == before.hash ==> EndsRight(env, before, cut, first, config))
  {
    var v := Ensured(env, cut, Fresh(env, before), first, second).venv;
    InterruptedVenv(env, before, cut, first, second);
    StripIsStripped(before.hash);
    if config.hash == before.hash {
      InterruptedInstalled(env, before, cut, first);
      ChangedSync(env, before, cut, first, config);
      ChangedSmoke(env, config, v);
    }
  }

  /** With the smoke test's packages among the base ones, only the sync can have failed. */
  lemma InterruptedVenv(env: Environment, before: Config, cut: Config, first: Fault, second: Fault)
    requires WellNamed(env) && WellFormed(env, before) && WellFormed(env, cut)
    requires before.hash == cut.hash != "" && env.required <= env.base(before.hash)
    requires !Ensured(env, cut, Fresh(env, before), first, second).ok
    ensures !ExtrasMatch(Fresh(env, before), cut) && !FullSync(env, cut, Fresh(env, before), first).ok
    ensures Ensured(env, cut, Fresh(env, before), first, second) == FullSync(env, cut, Fresh(env, before), first)
  {
    StripIsStripped(before.hash);
    PreviousOfNew(env, before, Fresh(env, before));
  }

  lemma InterruptedInstalled(env: Environment, before: Config, cut: Config, first: Fault)
    requires WellNamed(env) && WellFormed(env, before) && WellFormed(env, cut) && before.hash == cut.hash
    requires !FullSync(env, cut, Fresh(env, before), first).ok
    ensures var v := FullSync(env, cut, Fresh(env, before), first).venv;
      var base, managed, interim := env.base(before.hash), Managed(env, before), Managed(env, cut);
      && v.lock == Some(before.hash)
      && match first
         case Uninstalling(removed) => v.installed == base + (managed - removed * (managed - interim)) && v.extras == Some(NewExtras(env, before))
         case Installing(added) => v.installed == base + managed * interim + added * interim && v.extras == Some(NewExtras(env, before))
         case WritingExtras(kept) => v.installed == base + interim && v.extras == if kept then Some(NewExtras(env, before)) else None
         case _ => false
  {
    PreviousOfNew(env, before, Fresh(env, before));
  }

  /** What an uninterrupted sync makes of the interrupted venv. */
  lemma ChangedSync(env: Environment, before: Config, cut: Config, first: Fault, config: Config)
    requires WellNamed(env) && WellFormed(env, before) && WellFormed(env, cut) && WellFormed(env, config)
    requires before.hash == cut.hash == config.hash
    requires !FullSync(env, cut, Fresh(env, before), first).ok
    ensures var v := FullSync(env, cut, Fresh(env, before), first).venv;
      && Synced(env, config, v, NoFault).ok && env.base(config.hash) <= Synced(env, config, v, NoFault).venv.installed
      && (Synced(env, config, v, NoFault).venv == Fresh(env, config) <==> EndsRight(env, before, cut, first, config))
  {
    var v := FullSync(env, cut, Fresh(env, before), first).venv;
    var base, managed, interim, wanted := env.base(before.hash), Managed(env, before), Managed(env, cut), Managed(env, config);
    InterruptedInstalled(env, before, cut, first);
    if v.extras.Some? {
      PreviousOfNew(env, before, v);
      if Stamp(config.requirements) == Stamp(before.requirements) {
        StampDeterminesNames(env, before.requirements, config.requirements);
        RevertedSet(base, managed, interim, first, v.installed);
      } else {
        ChangedSet(base, managed, wanted, v.installed);
        OverlookedSet(base, managed, interim, wanted, first, v.installed);
      }
    } else {
      UnreadableSet(base, interim, wanted, v.installed);
    }
  }

  lemma ChangedSmoke(env: Environment, config: Config, v: Venv)
    requires WellFormed(env, config) && v.lock == Some(config.hash) && config.hash != "" && env.required <= env.base(config.hash)
    requires Synced(env, config, v, NoFault).ok && env.base(config.hash) <= Synced(env, config, v, NoFault).venv.installed
    ensures Ensured(env, config, v, NoFault, NoFault) == Synced(env, config, v, NoFault)
  {
    hide Synced;
    StripIsStripped(config.hash);
  }

  lemma ChangedSet(base: set<string>, managed: set<string>, wanted: set<string>, installed: set<string>)
    requires base !! managed && base <= installed
    ensures installed - (managed - wanted) + wanted == base + wanted <==> installed <= base + wanted + managed
    ensures base <= installed - (managed - wanted) + wanted
  {
    var after := installed - (managed - wanted) + wanted;
    if x :| x in installed && x !in base + wanted + managed {
      assert x in after && x !in base + wanted;
    }
  }

  /** The packages after an interruption that leaves the extras lock as it was. */
  ghost predicate LeftInstalled(base: set<string>, managed: set<string>, interim: set<string>, fault: Fault, installed: set<string>) {
    match fault
    case Uninstalling(removed) => installed == base + (managed - removed * (managed - interim))
    case Installing(added) => installed == base + managed * interim + added * interim
    case WritingExtras(kept) => kept && installed == base + interim
    case _ => false
  }

  lemma RevertedSet(base: set<string>, managed: set<string>, interim: set<string>, fault: Fault, installed: set<string>)
    requires base !! managed && base !! interim && LeftInstalled(base, managed, interim, fault, installed)
    ensures base <= installed
    ensures installed == base + managed <==>
      match fault
      case Uninstalling(removed) => removed !! (managed - interim)
      case Installing(added) => managed <= interim && added * interim <= managed
      case WritingExtras(_) => managed == interim
      case _ => true
  {
    if installed == base + managed {
      match fault {
        case Uninstalling(removed) =>
          forall x | x in managed - interim ensures x !in removed {
            assert x in installed;
          }
        case Installing(added) =>
          forall x | x in managed ensures x in interim {
            assert x in installed;
          }
          forall x | x in added * interim ensures x in managed {
            assert x in installed;
          }
        case WritingExtras(_) =>
          forall x ensures x in managed <==> x in interim {
            assert x in installed <==> x in base + managed;
          }
        case _ =>
      }
    }
  }

  lemma OverlookedSet(base: set<string>, managed: set<string>, interim: set<string>, wanted: set<string>, fault: Fault, installed: set<string>)
    requires base !! managed && base !! interim && LeftInstalled(base, managed, interim, fault, installed)
    ensures base <= installed
    ensures installed <= base + wanted + managed <==>
      match fault
      case Uninstalling(_) => true
      case Installing(added) => added * interim <= managed + wanted
      case WritingExtras(_) => interim <= managed + wanted
      case _ => true
  {
    if installed <= base + wanted + managed {
      forall x | x in interim && x in installed ensures x in managed + wanted {
        assert x in base + wanted + managed;
      }
    }
  }

  lemma UnreadableSet(base: set<string>, interim: set<string>, wanted: set<string>, installed: set<string>)
    requires base !! interim && installed == base + interim
    ensures installed - {} + wanted == base + wanted <==> interim <= wanted
    ensures base <= installed - {} + wanted
  {
    if base + interim + wanted == base + wanted {
      forall x | x in interim ensures x in wanted {
        assert x in base + interim + wanted;
      }
    }
  }

  /** Going back to the old requirements after an interrupted uninstall takes the fast path: what was removed stays
      missing. */
  lemma RevertedUninstallStaysMissing(env: Environment, before: Config, cut: Config, second: Fault, name: string)
    requires WellNamed(env) && WellFormed(env, before) && WellFormed(env, cut)
    requires before.hash == cut.hash != "" && env.required <= env.base(before.hash)
    requires name in Managed(env, before) && name !in Managed(env, cut)
    ensures var run := AfterChange(env, before, cut, Uninstalling({name}), second, before);
      run.ok && name !in run.venv.installed
  {
    var fault := Uninstalling({name});
    var v0 := Fresh(env, before);
    PreviousOfNew(env, before, v0);
    StripIsStripped(before.hash);
    if Stamp(before.requirements) == Stamp(cut.requirements) {
      StampDeterminesNames(env, before.requirements, cut.requirements);
    }
    assert name in Previous(v0) - Managed(env, cut);
    var v := Ensured(env, cut, v0, fault, second).venv;
    assert v == FullSync(env, cut, v0, fault).venv;
    InterruptedInstalled(env, before, cut, fault);
    assert Smoke(env, v);
  }

  /** A sync whose install was cut short after one distribution that was not managed before. */
  lemma CutInstall(env: Environment, before: Config, cut: Config, second: Fault, name: string)
    requires WellNamed(env) && WellFormed(env, before) && WellFormed(env, cut)
    requires before.hash == cut.hash != "" && name in Managed(env, cut) && name !in Managed(env, before)
    ensures var fault, v0 := Installing({name}), Fresh(env, before);
      && !FullSync(env, cut, v0, fault).ok && Ensured(env, cut, v0, fault, second) == FullSync(env, cut, v0, fault)
      && name in FullSync(env, cut, v0, fault).venv.installed && FullSync(env, cut, v0, fault).venv.extras == v0.extras
  {
    StripIsStripped(before.hash);
    if Stamp(before.requirements) == Stamp(cut.requirements) {
      StampDeterminesNames(env, before.requirements, cut.requirements);
    }
    if Clean(cut.requirements) == [] {
      NothingManaged(env, cut);
    }
  }

  /** What an interrupted install added and the next requirements do not want is never uninstalled. */
  lemma AbandonedInstallStays(env: Environment, before: Config, cut: Config, second: Fault, config: Config, name: string)
    requires WellNamed(env) && WellFormed(env, before) && WellFormed(env, cut) && WellFormed(env, config)
    requires before.hash == cut.hash == config.hash != "" && env.required <= env.base(before.hash)
    requires name in Managed(env, cut) && name !in Managed(env, before) + Managed(env, config)
    ensures var run := AfterChange(env, before, cut, Installing({name}), second, config);
      run.ok && name in run.venv.installed && name !in Fresh(env, config).installed
  {
    hide Ensured;
    var v := FullSync(env, cut, Fresh(env, before), Installing({name})).venv;
    CutInstall(env, before, cut, second, name);
    InterruptedInstalled(env, before, cut, Installing({name}));
    ChangedSync(env, before, cut, Installing({name}), config);
    ChangedSmoke(env, config, v);
    PreviousOfNew(env, before, v);
  }
}
