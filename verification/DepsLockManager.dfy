/** The lock manager of a prepare run: load, apply to the links, remember what is pinned, verify
    (git/deps_lock_manager.py). */
module DepsLockManager {
  import opened Results
  import opened Sequences
  import opened RepoUrl
  import opened DepsLocks
  import opened LockedCheckout
  import opened LockCollection

  /** A repository link, updated in place by pinning and checking out. */
  class Link {
    const repo: Repository
    var commit: string
    var commitExplicit: bool
    var branch: string
    var branchExplicit: bool
    var head: string

    constructor (initial: LinkState)
      ensures State() == initial
    {
      repo := initial.repo;
      commit, commitExplicit := initial.commit, initial.commitExplicit;
      branch, branchExplicit := initial.branch, initial.branchExplicit;
      head := initial.head;
    }

    function State(): LinkState
      reads this
    {
      LinkState(repo, commit, commitExplicit, branch, branchExplicit, head)
    }

    /** `apply_lock_entry_to_link` */
    method ApplyEntry(e: LockEntry)
      modifies this
      ensures State() == Pinned(old(State()), e)
      ensures head == old(head) && commit == e.commit && commitExplicit
      ensures if e.branch == None || e.branch == Some("") then branch == old(branch) && branchExplicit == old(branchExplicit)
              else Some(branch) == e.branch && branchExplicit
    {
      commit, commitExplicit := e.commit, true;
      if e.branch.Some? && e.branch.value != "" {
        branch, branchExplicit := e.branch.value, true;
      }
    }

    /** `checkout_repository` */
    method Checkout(version: string, update: bool)
      modifies this
      ensures State() == CheckedOut(old(State()), version, update)
    {
      if repo.linkType != LocalFilesystem && repo.isRepo {
        if commitExplicit {
          head := repo.resolve(commit);
        } else if branchExplicit {
          head := repo.resolve(branch);
        } else {
          head := repo.resolve(version);
        }
      }
      if update && !commitExplicit && repo.isRepo {
        head := repo.pull(head);
      }
    }
  }

  function States(links: seq<Link>): (states: seq<LinkState>)
    reads links
    ensures |states| == |links| && forall i | 0 <= i < |links| :: states[i] == links[i].State()
  {
    seq(|links|, i requires 0 <= i < |links| reads links => links[i].State())
  }

  /** The link objects of a project; no object plays two parts. */
  datatype Links = Links(platform: Link, developing: Link, dependencies: seq<Link>) {
    predicate Separate() {
      platform != developing && platform !in dependencies && developing !in dependencies && NoDuplicates(dependencies)
    }

    function View(): (ws: Workspace)
      reads platform, developing, dependencies
      ensures ws.platform == platform.State() && ws.developing == developing.State() && ws.dependencies == States(dependencies)
    {
      Workspace(platform.State(), developing.State(), States(dependencies))
    }
  }

  datatype LockSource = DepsFile | Manifest

  class Manager {
    const strict: bool
    const developer: bool
    var source: LockSource
    var lock: Option<Lock>
    var applyMode: bool
    var pinned: set<string>
    var warnings: seq<Issue>

    constructor (strict: bool, developer: bool)
      ensures this.strict == strict && this.developer == developer
      ensures lock == None && !applyMode && pinned == {} && warnings == []
    {
      this.strict, this.developer := strict, developer;
      source, lock, applyMode, pinned, warnings := DepsFile, None, false, {}, [];
    }

    /** `_report_issue`: raises in strict mode. */
    method Report(issue: Issue) returns (r: Result<(), Issue>)
      modifies this`warnings
      ensures Reports(strict, old(warnings), [issue], warnings, r)
    {
      if strict {
        return Err(issue);
      }
      warnings := warnings + [issue];
      r := Ok(());
    }

    /** `load`: manifest locks win on a v2 manifest that has some; outside strict mode an unusable manifest lock
        falls back to the file. */
    method Load(gitLocks: GitLocks, platformLink: string, developingLink: Option<string>, dependencyLinks: seq<string>,
                fileLock: Option<Lock>) returns (r: Result<(), string>)
      modifies this`source, this`lock
      ensures var rebuilt := Rebuilt(gitLocks, platformLink, developingLink, dependencyLinks);
        && (r.Err? <==> gitLocks != [] && rebuilt.Err? && strict)
        && (r.Ok? && gitLocks != [] && rebuilt.Ok? ==> source == Manifest && lock == Some(rebuilt.value))
        && (r.Ok? && (gitLocks == [] || rebuilt.Err?) ==> source == DepsFile && lock == fileLock)
        && (r.Err? ==> lock == old(lock))
    {
      source := if gitLocks != [] then Manifest else DepsFile;
      if source == Manifest {
        var rebuilt := LockFromManifest(gitLocks, platformLink, developingLink, dependencyLinks);
        if rebuilt.Ok? {
          lock := Some(rebuilt.value);
          return Ok(());
        }
        if strict {
          return Err(rebuilt.error);
        }
        source := DepsFile;
      }
      lock := fileLock;
      r := Ok(());
    }

    /** `enter_apply_mode` */
    method EnterApplyMode()
      modifies this`applyMode
      ensures applyMode == (old(applyMode) || lock.Some?)
    {
      if lock.Some? {
        applyMode := true;
      }
    }

    /** `apply_to_platform`: whatever repository the platform link names. */
    method ApplyToPlatform(platform: Link)
      modifies this`pinned, platform
      ensures platform.State() == if applyMode && lock.Some? && lock.value.platform.Some? then Pinned(old(platform.State()), lock.value.platform.value) else old(platform.State())
      ensures pinned == old(pinned) + if applyMode && lock.Some? && lock.value.platform.Some? then {Key(lock.value.platform.value)} else {}
    {
      if !applyMode || lock.None? || lock.value.platform.None? {
        return;
      }
      var entry := lock.value.platform.value;
      platform.ApplyEntry(entry);
      pinned := pinned + {Key(entry)};
    }

    /** `_check_stale_developing_entry` */
    method CheckStaleDeveloping(developing: Link) returns (r: Result<(), Issue>)
      requires lock.Some? && lock.value.developing.Some? && !developer
      modifies this`warnings
      ensures Reports(strict, old(warnings), DevelopingIssues(lock.value, developer, developing.State()), warnings, r)
    {
      var entry := lock.value.developing.value;
      if !IsRemote(developing.repo) {
        r := Report(StaleDeveloping(entry.url));
        return;
      }
      if ProjectUrl(developing.State()) != Key(entry) {
        r := Report(StaleDeveloping(entry.url));
        return;
      }
      r := Ok(());
    }

    /** `apply_to_developing`: developers keep their own checkout. */
    method ApplyToDeveloping(developing: Link) returns (r: Result<(), Issue>)
      modifies this`pinned, this`warnings, developing
      ensures Reports(strict, old(warnings), if applyMode && lock.Some? then DevelopingIssues(lock.value, developer, old(developing.State())) else [], warnings, r)
      ensures var applies := r.Ok? && applyMode && lock.Some? && AppliesDeveloping(lock.value, developer, old(developing.State()));
        && developing.State() == (if applies then Pinned(old(developing.State()), lock.value.developing.value) else old(developing.State()))
        && pinned == old(pinned) + if applies then {Key(lock.value.developing.value)} else {}
    {
      r := Ok(());
      if !applyMode || lock.None? || lock.value.developing.None? || developer {
        return;
      }
      r := CheckStaleDeveloping(developing);
      if r.Err? || !IsRemote(developing.repo) {
        return;
      }
      var entry := lock.value.developing.value;
      developing.ApplyEntry(entry);
      pinned := pinned + {Key(entry)};
    }

    /** `_check_seed_coverage` */
    method CheckSeedCoverage(seeds: seq<string>) returns (r: Result<(), Issue>)
      requires lock.Some?
      modifies this`warnings
      ensures Reports(strict, old(warnings), SeedIssues(lock.value, seeds), warnings, r)
    {
      hide Canonical, Key;
      for i := 0 to |seeds|
        invariant Reports(strict, old(warnings), SeedIssues(lock.value, seeds[..i]), warnings, Ok(()))
        invariant lock == old(lock)
      {
        SeedStep(lock.value, seeds, i);
        if EntryFor(lock.value, seeds[i]).None? {
          ghost var before := warnings;
          r := Report(SeedMissing(seeds[i]));
          ReportsThen(strict, old(warnings), SeedIssues(lock.value, seeds[..i]), before, [SeedMissing(seeds[i])], warnings, r);
          if r.Err? {
            SeedIssuesGrow(lock.value, seeds, i + 1);
            RaisedEarly(strict, old(warnings), SeedIssues(lock.value, seeds[..i + 1]), SeedIssues(lock.value, seeds), warnings, r);
            return;
          }
        }
      }
      assert seeds[..|seeds|] == seeds;
      r := Ok(());
    }

    /** `_check_stale_dependency_entries` */
    method CheckStaleDependencies(projects: seq<Link>) returns (r: Result<(), Issue>)
      requires lock.Some?
      modifies this`warnings
      ensures Reports(strict, old(warnings), StaleIssues(lock.value.dependencies, Urls(States(projects))), warnings, r)
    {
      hide Canonical, Key, ProjectUrl, Urls, StaleIssues, Link.State;
      var entries, urls := lock.value.dependencies, Urls(States(projects));
      NoneStaleYet(entries, urls);
      for i := 0 to |entries|
        invariant Reports(strict, old(warnings), StaleIssues(entries[..i], urls), warnings, Ok(()))
      {
        StaleStep(entries, urls, i);
        if Key(entries[i]) !in urls {
          ghost var before := warnings;
          r := Report(StaleDependency(entries[i].url));
          ReportsThen(strict, old(warnings), StaleIssues(entries[..i], urls), before, [StaleDependency(entries[i].url)], warnings, r);
          if r.Err? {
            StaleIssuesGrow(entries, urls, i + 1);
            RaisedEarly(strict, old(warnings), StaleIssues(entries[..i + 1], urls), StaleIssues(entries, urls), warnings, r);
            return;
          }
        }
      }
      assert entries[..|entries|] == entries;
      r := Ok(());
    }

    method PinDependency(project: Link, ghost before: seq<LinkState>, ghost i: nat, ghost start: set<string>)
      requires lock.Some? && i < |before| && before[i] == project.State()
      requires pinned == start + DependencyPins(lock.value, before[..i])
      modifies this`pinned, project
      ensures project.State() == AppliedDependencies(lock.value, before)[i]
      ensures pinned == start + DependencyPins(lock.value, before[..i + 1])
    {
      PinStep(lock.value, before, i);
      var entry := EntryFor(lock.value, ProjectUrl(project.State()));
      if entry.Some? {
        project.ApplyEntry(entry.value);
        pinned := pinned + {Key(entry.value)};
      }
    }

    /** The loop of `apply_to_dependencies`. */
    method PinDependencies(projects: seq<Link>)
      requires lock.Some? && NoDuplicates(projects)
      modifies this`pinned, projects
      ensures States(projects) == AppliedDependencies(lock.value, old(States(projects)))
      ensures pinned == old(pinned) + DependencyPins(lock.value, old(States(projects)))
    {
      hide Canonical, EntryFor, PinOf, AppliedDependency, DependencyPins, Pinned, Link.State;
      ghost var before := States(projects);
      ghost var after := AppliedDependencies(lock.value, before);
      NoPins(lock.value, before);
      for i := 0 to |projects|
        invariant forall j | 0 <= j < |projects| :: projects[j].State() == if j < i then after[j] else before[j]
        invariant pinned == old(pinned) + DependencyPins(lock.value, before[..i])
      {
        PinDependency(projects[i], before, i, old(pinned));
      }
      StatesAre(projects, after);
      assert before[..|projects|] == before;
    }

    /** `apply_to_dependencies` */
    method ApplyToDependencies(projects: seq<Link>, seeds: seq<string>) returns (r: Result<(), Issue>)
      requires NoDuplicates(projects)
      modifies this`pinned, this`warnings, projects
      ensures Reports(strict, old(warnings), if applyMode && lock.Some? then SeedIssues(lock.value, seeds) + StaleIssues(lock.value.dependencies, Urls(old(States(projects)))) else [], warnings, r)
      ensures var applies := r.Ok? && applyMode && lock.Some?;
        && States(projects) == (if applies then AppliedDependencies(lock.value, old(States(projects))) else old(States(projects)))
        && pinned == old(pinned) + if applies then DependencyPins(lock.value, old(States(projects))) else {}
    {
      hide Canonical, AppliedDependencies, DependencyPins, SeedIssues, StaleIssues;
      if !applyMode || lock.None? {
        return Ok(());
      }
      r := CheckSeedCoverage(seeds);
      ghost var between, first := warnings, r;
      if r.Ok? {
        r := CheckStaleDependencies(projects);
        ReportsThen(strict, old(warnings), SeedIssues(lock.value, seeds), between,
                    StaleIssues(lock.value.dependencies, Urls(States(projects))), warnings, r);
      }
      if r.Ok? {
        PinDependencies(projects);
      }
    }

    /** `apply_pinned_locks`: platform, then developing, then dependencies. */
    method ApplyPinnedLocks(links: Links, seeds: seq<string>) returns (r: Result<(), Issue>)
      requires links.Separate() && applyMode && lock.Some?
      modifies this`pinned, this`warnings, links.platform, links.developing, links.dependencies
      ensures Reports(strict, old(warnings), DevelopingIssues(lock.value, developer, old(links.developing.State()))
        + (SeedIssues(lock.value, seeds) + StaleIssues(lock.value.dependencies, Urls(old(States(links.dependencies))))), warnings, r)
      ensures r.Ok? ==> links.View() == Applied(lock.value, developer, old(links.View()))
      ensures r.Ok? ==> pinned == old(pinned) + AppliedPins(lock.value, developer, old(links.View()))
    {
      hide Canonical, Pinned, SeedIssues, StaleIssues, AppliedDependencies, DependencyPins, DevelopingIssues, Link.State;
      ghost var ws := links.View();
      ApplyToPlatform(links.platform);
      assert States(links.dependencies) == ws.dependencies;
      r := ApplyToDeveloping(links.developing);
      assert States(links.dependencies) == ws.dependencies;
      ghost var between := warnings;
      if r.Ok? {
        r := ApplyToDependencies(links.dependencies, seeds);
        ReportsThen(strict, old(warnings), DevelopingIssues(lock.value, developer, ws.developing), between,
                    SeedIssues(lock.value, seeds) + StaleIssues(lock.value.dependencies, Urls(ws.dependencies)), warnings, r);
      }
    }

    /** `is_pinned` */
    predicate IsPinned(project: LinkState)
      reads this
    {
      ProjectUrl(project) in pinned
    }

    /** `_verify_entry` */
    method VerifyEntry(project: Link, e: LockEntry) returns (r: Result<(), Issue>)
      modifies this`warnings
      ensures Reports(strict, old(warnings), CheckIssues((project.State(), e)), warnings, r)
    {
      match Current(project.State(), e) {
        case None =>
          r := Report(CannotVerify(e.url));
        case Some(current) =>
          r := Ok(());
          if current != e.commit {
            r := Report(Drift(e.url, e.commit, current));
          }
      }
    }

    /** `_project_for_url` and the check that follows. */
    method VerifyDependency(e: LockEntry, dependencies: seq<Link>) returns (r: Result<(), Issue>)
      modifies this`warnings
      ensures Reports(strict, old(warnings), Issues(DependencyCheck(e, States(dependencies))), warnings, r)
    {
      hide Canonical;
      var i := FirstPosition(Urls(States(dependencies)), Key(e));
      r := Ok(());
      if i < |dependencies| {
        SingleCheck((dependencies[i].State(), e));
        r := VerifyEntry(dependencies[i], e);
      }
    }

    method VerifyDependencies(dependencies: seq<Link>) returns (r: Result<(), Issue>)
      requires lock.Some?
      modifies this`warnings
      ensures Reports(strict, old(warnings), Issues(DependencyChecks(lock.value.dependencies, States(dependencies))), warnings, r)
    {
      hide Canonical, DependencyCheck, CheckIssues, Issues, DependencyChecks;
      NoChecks(lock.value.dependencies, States(dependencies));
      var entries := lock.value.dependencies;
      ghost var links := States(dependencies);
      for i := 0 to |entries|
        invariant Reports(strict, old(warnings), Issues(DependencyChecks(entries[..i], links)), warnings, Ok(()))
      {
        CheckStep(entries, links, i);
        ghost var before := warnings;
        r := VerifyDependency(entries[i], dependencies);
        ReportsThen(strict, old(warnings), Issues(DependencyChecks(entries[..i], links)), before,
                    Issues(DependencyCheck(entries[i], links)), warnings, r);
        if r.Err? {
          CheckIssuesGrow(entries, links, i + 1);
          RaisedEarly(strict, old(warnings), Issues(DependencyChecks(entries[..i + 1], links)),
                      Issues(DependencyChecks(entries, links)), warnings, r);
          return;
        }
      }
      assert entries[..|entries|] == entries;
      r := Ok(());
    }

    method VerifyOwn(platform: Link, developing: Link) returns (r: Result<(), Issue>)
      requires lock.Some?
      modifies this`warnings
      ensures Reports(strict, old(warnings),
                      Issues(PlatformCheck(lock.value, platform.State()) + DevelopingCheck(lock.value, developer, developing.State())), warnings, r)
    {
      hide Canonical;
      IssuesConcat(PlatformCheck(lock.value, platform.State()), DevelopingCheck(lock.value, developer, developing.State()));
      r := Ok(());
      if lock.value.platform.Some? {
        SingleCheck((platform.State(), lock.value.platform.value));
        r := VerifyEntry(platform, lock.value.platform.value);
      }
      ghost var between := warnings;
      if r.Ok? && lock.value.developing.Some? && IsRemote(developing.repo) && !developer {
        SingleCheck((developing.State(), lock.value.developing.value));
        r := VerifyEntry(developing, lock.value.developing.value);
        ReportsThen(strict, old(warnings), Issues(PlatformCheck(lock.value, platform.State())), between,
                    Issues(DevelopingCheck(lock.value, developer, developing.State())), warnings, r);
      }
    }

    /** `verify_after_checkout`: in strict mode it passes exactly when every checked repository is at its pin. */
    method VerifyAfterCheckout(links: Links) returns (r: Result<(), Issue>)
      modifies this`warnings
      ensures Reports(strict, old(warnings), if applyMode && lock.Some? then Issues(Checks(lock.value, developer, links.View())) else [], warnings, r)
      ensures strict && applyMode && lock.Some? ==>
        (r.Ok? <==> AllAtPin(Checks(lock.value, developer, links.View())))
    {
      hide Canonical, CheckIssues, PlatformCheck, DevelopingCheck, DependencyChecks, AtPin;
      if !applyMode || lock.None? {
        return Ok(());
      }
      ghost var ws := links.View();
      ghost var own := PlatformCheck(lock.value, ws.platform) + DevelopingCheck(lock.value, developer, ws.developing);
      IssuesConcat(own, DependencyChecks(lock.value.dependencies, ws.dependencies));
      NoIssuesExactlyWhen(Checks(lock.value, developer, ws));
      r := VerifyOwn(links.platform, links.developing);
      ghost var between := warnings;
      if r.Ok? {
        r := VerifyDependencies(links.dependencies);
        ReportsThen(strict, old(warnings), Issues(own), between,
                    Issues(DependencyChecks(lock.value.dependencies, ws.dependencies)), warnings, r);
      }
    }

    /** `checkout_project` */
    method CheckoutProject(project: Link, version: string, update: bool)
      modifies project
      ensures project.State() == CheckedOutUnpinned(old(project.State()), pinned, version, update)
    {
      project.Checkout(version, update && !IsPinned(project.State()));
    }

    method CheckoutAll(projects: seq<Link>, version: string, update: bool)
      requires NoDuplicates(projects)
      modifies projects
      ensures States(projects) == CheckedOutEach(old(States(projects)), pinned, version, update)
    {
      hide Canonical, CheckedOutUnpinned, Link.State;
      ghost var before := States(projects);
      for i := 0 to |projects|
        invariant forall j | 0 <= j < |projects| ::
          projects[j].State() == if j < i then CheckedOutUnpinned(before[j], pinned, version, update) else before[j]
      {
        CheckoutProject(projects[i], version, update);
      }
      StatesAre(projects, CheckedOutEach(before, pinned, version, update));
    }

    /** `checkout_dependencies` */
    method CheckoutDependencies(links: Links, version: string, update: bool)
      requires links.Separate()
      modifies links.platform, links.developing, links.dependencies
      ensures links.View() == CheckedOutWorkspace(developer, old(links.View()), pinned, version, update)
    {
      hide Canonical, CheckedOutUnpinned, CheckedOutEach;
      ghost var ws := links.View();
      var checksOut := ChecksOutDeveloping(developer, links.developing.State(), pinned);
      CheckoutProject(links.platform, version, update);
      if checksOut {
        CheckoutProject(links.developing, version, update);
      }
      assert States(links.dependencies) == ws.dependencies;
      CheckoutAll(links.dependencies, version, update);
    }

    /** A git run with a loaded lock: apply it, check out, verify. Outside strict mode it always finishes; in strict
        mode it passes exactly when nothing is stale or missing and every compared pin survives. */
    method Run(links: Links, seeds: seq<string>, version: string, update: bool) returns (r: Result<(), Issue>)
      requires links.Separate() && lock.Some? && pinned == {}
      modifies this, links.platform, links.developing, links.dependencies
      ensures lock == old(lock)
      ensures Reports(strict, old(warnings), ApplyIssues(lock.value, developer, old(links.View()), seeds)
        + Issues(Checks(lock.value, developer, Synced(lock.value, developer, old(links.View()), version, update))), warnings, r)
      ensures r.Ok? ==> links.View() == Synced(lock.value, developer, old(links.View()), version, update)
      ensures SyncReady(lock.value, developer, old(links.View())) && strict ==>
        (r.Ok? <==> ApplyIssues(lock.value, developer, old(links.View()), seeds) == [] && PinsSurvive(lock.value, developer, old(links.View()), version, update))
    {
      hide Canonical, SyncReady, Issues, Checks, ApplyIssues, Applied, AppliedPins, CheckedOutWorkspace, PinsSurvive, Link.State;
      ghost var ws := links.View();
      RunVerdict(lock.value, developer, ws, seeds, version, update);
      EnterApplyMode();
      ApplyIssuesAre(lock.value, developer, ws, seeds);
      r := ApplyPinnedLocks(links, seeds);
      if r.Err? {
        RaisedEarly(strict, old(warnings), ApplyIssues(lock.value, developer, ws, seeds),
                    RunIssues(lock.value, developer, ws, seeds, version, update), warnings, r);
      } else {
        ghost var between := warnings;
        assert pinned == AppliedPins(lock.value, developer, ws);
        CheckoutDependencies(links, version, update);
        assert links.View() == Synced(lock.value, developer, ws, version, update);
        r := VerifyAfterCheckout(links);
        ReportsThen(strict, old(warnings), ApplyIssues(lock.value, developer, ws, seeds), between,
                    Issues(Checks(lock.value, developer, links.View())), warnings, r);
      }
    }

    method CollectEntries(projects: seq<Link>) returns (entries: Option<seq<LockEntry>>)
      ensures entries == EntriesOf(States(projects))
    {
      hide EntryOf, Link.State;
      var collected: seq<LockEntry> := [];
      for i := 0 to |projects|
        invariant |collected| == i
        invariant forall j | 0 <= j < i :: EntryOf(projects[j].State()) == Some(collected[j])
      {
        var entry := EntryOf(projects[i].State());
        if entry.None? {
          assert EntryOf(States(projects)[i]).None?;
          return None;
        }
        collected := collected + [entry.value];
      }
      EntriesAre(States(projects), collected);
      entries := Some(collected);
    }

    /** `collect_and_save`: the lock that is written; none where a commit cannot be resolved. */
    method CollectAndSave(links: Links) returns (collected: Option<Lock>)
      ensures collected == Collected(links.View())
    {
      hide Canonical;
      var platform := EntryOf(links.platform.State());
      if platform.None? {
        return None;
      }
      var dependencies := CollectEntries(links.dependencies);
      if dependencies.None? {
        return None;
      }
      var developing: Option<LockEntry> := None;
      if IsRemote(links.developing.repo) {
        developing := EntryOf(links.developing.State());
        if developing.None? {
          return None;
        }
      }
      collected := Some(Lock(platform, developing, SortEntries(dependencies.value)));
    }
  }

  function RunIssues(lock: Lock, developer: bool, ws: Workspace, seeds: seq<string>, version: string, update: bool): seq<Issue> {
    ApplyIssues(lock, developer, ws, seeds) + Issues(Checks(lock, developer, Synced(lock, developer, ws, version, update)))
  }

  lemma RunVerdict(lock: Lock, developer: bool, ws: Workspace, seeds: seq<string>, version: string, update: bool)
    ensures SyncReady(lock, developer, ws) ==>
      (RunIssues(lock, developer, ws, seeds, version, update) == [] <==>
        ApplyIssues(lock, developer, ws, seeds) == [] && PinsSurvive(lock, developer, ws, version, update))
  {
    hide Canonical, ApplyIssues, Synced, SyncReady, Checks, Issues, PinsSurvive;
    if SyncReady(lock, developer, ws) {
      VerifiesExactlyWhen(lock, developer, ws, version, update);
    }
  }

  lemma StatesAre(links: seq<Link>, states: seq<LinkState>)
    requires |links| == |states| && forall i | 0 <= i < |links| :: links[i].State() == states[i]
    ensures States(links) == states
  {
  }

  lemma NoPins(lock: Lock, links: seq<LinkState>)
    ensures DependencyPins(lock, links[..0]) == {}
  {
  }

  lemma NoChecks(entries: seq<LockEntry>, links: seq<LinkState>)
    ensures Issues(DependencyChecks(entries[..0], links)) == []
  {
  }

  lemma SingleCheck(check: Check)
    ensures Issues([check]) == CheckIssues(check)
  {
    assert [check][..0] == [];
  }

  /** What applying reports: the developing entry, then uncovered seeds, then stale dependency entries. */
  function ApplyIssues(lock: Lock, developer: bool, ws: Workspace, seeds: seq<string>): seq<Issue> {
    DevelopingIssues(lock, developer, ws.developing) + (SeedIssues(lock, seeds) + StaleIssues(lock.dependencies, Urls(ws.dependencies)))
  }

  lemma ApplyIssuesAre(lock: Lock, developer: bool, ws: Workspace, seeds: seq<string>)
    ensures ApplyIssues(lock, developer, ws, seeds) == DevelopingIssues(lock, developer, ws.developing)
      + (SeedIssues(lock, seeds) + StaleIssues(lock.dependencies, Urls(ws.dependencies)))
  {
  }

  lemma PinStep(lock: Lock, links: seq<LinkState>, i: nat)
    requires i < |links|
    ensures DependencyPins(lock, links[..i + 1]) ==
      DependencyPins(lock, links[..i]) + if PinOf(lock, links[i]).Some? then {PinOf(lock, links[i]).value} else {}
  {
    hide Canonical;
    assert PinsOf(lock, links[..i + 1]) == PinsOf(lock, links[..i]) + [PinOf(lock, links[i])];
    ValuesAppend(PinsOf(lock, links[..i]), PinOf(lock, links[i]));
  }

  lemma ValuesAppend(options: seq<Option<string>>, last: Option<string>)
    ensures Values(options + [last]) == Values(options) + if last.Some? then {last.value} else {}
  {
    forall x ensures x in Values(options + [last]) <==> x in Values(options) || last == Some(x) {
      if x in Values(options) {
        var i :| 0 <= i < |options| && options[i] == Some(x);
        assert (options + [last])[i] == Some(x);
      }
      if last == Some(x) {
        assert (options + [last])[|options|] == Some(x);
      }
    }
  }

  lemma SeedStep(lock: Lock, seeds: seq<string>, i: nat)
    requires i < |seeds|
    ensures SeedIssues(lock, seeds[..i + 1]) ==
      SeedIssues(lock, seeds[..i]) + if EntryFor(lock, seeds[i]).None? then [SeedMissing(seeds[i])] else []
  {
    assert seeds[..i + 1][..i] == seeds[..i];
  }

  lemma {:induction false} SeedIssuesGrow(lock: Lock, seeds: seq<string>, i: nat)
    requires i <= |seeds|
    ensures SeedIssues(lock, seeds[..i]) <= SeedIssues(lock, seeds)
    decreases |seeds| - i
  {
    hide Canonical;
    if i == |seeds| {
      assert seeds[..i] == seeds;
    } else {
      SeedStep(lock, seeds, i);
      SeedIssuesGrow(lock, seeds, i + 1);
    }
  }

  lemma NoneStaleYet(entries: seq<LockEntry>, urls: seq<string>)
    ensures StaleIssues(entries[..0], urls) == []
  {
  }

  lemma StaleStep(entries: seq<LockEntry>, urls: seq<string>, i: nat)
    requires i < |entries|
    ensures StaleIssues(entries[..i + 1], urls) ==
      StaleIssues(entries[..i], urls) + if Key(entries[i]) in urls then [] else [StaleDependency(entries[i].url)]
  {
    assert entries[..i + 1][..i] == entries[..i];
  }

  lemma {:induction false} StaleIssuesGrow(entries: seq<LockEntry>, urls: seq<string>, i: nat)
    requires i <= |entries|
    ensures StaleIssues(entries[..i], urls) <= StaleIssues(entries, urls)
    decreases |entries| - i
  {
    if i == |entries| {
      assert entries[..i] == entries;
    } else {
      StaleStep(entries, urls, i);
      StaleIssuesGrow(entries, urls, i + 1);
    }
  }

  lemma CheckStep(entries: seq<LockEntry>, links: seq<LinkState>, i: nat)
    requires i < |entries|
    ensures Issues(DependencyChecks(entries[..i + 1], links)) ==
      Issues(DependencyChecks(entries[..i], links)) + Issues(DependencyCheck(entries[i], links))
  {
    hide Canonical;
    assert entries[..i + 1][..i] == entries[..i];
    IssuesConcat(DependencyChecks(entries[..i], links), DependencyCheck(entries[i], links));
  }

  lemma {:induction false} CheckIssuesGrow(entries: seq<LockEntry>, links: seq<LinkState>, i: nat)
    requires i <= |entries|
    ensures Issues(DependencyChecks(entries[..i], links)) <= Issues(DependencyChecks(entries, links))
    decreases |entries| - i
  {
    hide Canonical;
    if i == |entries| {
      assert entries[..i] == entries;
    } else {
      CheckStep(entries, links, i);
      CheckIssuesGrow(entries, links, i + 1);
    }
  }

  /** When a prefix of the issues already raised, the rest does not matter. */
  lemma RaisedEarly(strict: bool, before: seq<Issue>, some: seq<Issue>, all: seq<Issue>, after: seq<Issue>, r: Result<(), Issue>)
    requires Reports(strict, before, some, after, r) && r.Err? && some <= all
    ensures Reports(strict, before, all, after, r)
  {
  }
}
