/** What follows preparation: adoption of a database baseline, the drift check and container start-up
    (runtime_coordinator.py, database/adopt.py). */
module RuntimeCoordination {
  import opened Results
  import opened DatabaseDrift
  import opened DriftResolution

  datatype Flags = Flags(buildImage: bool, updateLock: bool, skipStart: bool, accepted: set<Kind>)

  datatype Policy = Policy(allowBuildImage: bool, includeDebugpy: bool, skipIdeConfig: bool, mountRuntimeConfig: bool)

  /** How the outside world answers: image build, database start-up and what that leaves in the data directory,
      secrets, hooks, `compose up`. */
  datatype World = World(imageBuilds: bool, postgresReady: bool, postgresStarts: bool,
                         startedNonempty: bool, startedMajor: Option<int>,
                         secretsMet: bool, hooksSucceed: bool, composeExit: int)

  datatype Event =
    | BuildImage | WriteDebugProfile | ConfigureIde | StartPostgres | EnsureRole | RecordBaseline
    | CheckDrift | CheckSecrets | PreUpHooks | StartContainers

  datatype Failure =
    | BuildImageNotAllowed | BuildFailed | PostgresFailed | RoleNotCreated | DriftBlocks(kinds: seq<Kind>)
    | SecretsMissing | HookFailed | ComposeFailed(exitCode: int)

  /** One run: the effects in order, the database host afterwards, and how it ended. */
  datatype Run = Run(trace: seq<Event>, host: Host, raised: Option<Failure>)

  // ---- Specification --------------------------------------------------------------------------------

  /** `needs_database_adoption` */
  predicate NeedsAdoption(policy: Policy, host: Host) {
    policy.mountRuntimeConfig && host.lastRun.None?
  }

  /** The host once adoption has seen to PostgreSQL: starting it may have set up the data directory. */
  function Started(world: World, host: Host): Host {
    if world.postgresReady then host
    else host.(config := host.config.(cluster := host.config.cluster.(dataDirNonempty := world.startedNonempty, pgMajor := world.startedMajor)))
  }

  /** `build_adoption_last_run`, once the role exists. */
  function Adopted(host: Host): Host {
    host.(role := Some(true), lastRun := Some(host.config.WithRole(Some(true)).ToLastRun(host.now)))
  }

  predicate AdoptionSucceeds(policy: Policy, world: World, host: Host) {
    NeedsAdoption(policy, host) ==> (world.postgresReady || world.postgresStarts) && host.roleCreatable
  }

  function AfterAdoption(policy: Policy, world: World, host: Host): Host {
    if !NeedsAdoption(policy, host) then host
    else if AdoptionSucceeds(policy, world, host) then Adopted(Started(world, host))
    else Started(world, host)
  }

  /** What happens before the database is looked at. */
  function Opening(policy: Policy): seq<Event> {
    (if policy.includeDebugpy then [WriteDebugProfile] else []) + if policy.skipIdeConfig then [] else [ConfigureIde]
  }

  function AdoptionEvents(policy: Policy, world: World, host: Host): seq<Event> {
    if !NeedsAdoption(policy, host) then []
    else
      (if world.postgresReady then [] else [StartPostgres])
      + (if !world.postgresReady && !world.postgresStarts then []
         else if !host.roleCreatable then [EnsureRole] else [EnsureRole, RecordBaseline])
  }

  /** `adopt_database_baseline` */
  function Adoption(policy: Policy, world: World, host: Host): Option<Failure> {
    if AdoptionSucceeds(policy, world, host) then None
    else if world.postgresReady || world.postgresStarts then Some(RoleNotCreated) else Some(PostgresFailed)
  }

  /** From the drift check on. */
  function Launch(flags: Flags, world: World, host: Host): (seq<Event>, Option<Failure>) {
    var blocking := Blocking(PendingNow(host), flags.accepted);
    if blocking != [] then ([CheckDrift], Some(DriftBlocks(Kinds(blocking))))
    else if !world.secretsMet then ([CheckDrift, CheckSecrets], Some(SecretsMissing))
    else if !world.hooksSucceed then ([CheckDrift, CheckSecrets, PreUpHooks], Some(HookFailed))
    else ([CheckDrift, CheckSecrets, PreUpHooks, StartContainers],
          if world.composeExit == 0 then None else Some(ComposeFailed(world.composeExit)))
  }

  /** `run_after_prepare` */
  function AfterPrepare(flags: Flags, policy: Policy, world: World, host: Host): Run {
    if flags.buildImage && !policy.allowBuildImage then Run([], host, Some(BuildImageNotAllowed))
    else if flags.buildImage then Run([BuildImage], host, if world.imageBuilds then None else Some(BuildFailed))
    else if flags.updateLock || flags.skipStart then Run(Opening(policy), host, None)
    else
      var events := Opening(policy) + AdoptionEvents(policy, world, host);
      var adopted := AfterAdoption(policy, world, host);
      if !AdoptionSucceeds(policy, world, host) then Run(events, adopted, Adoption(policy, world, host))
      else
        var (launch, raised) := Launch(flags, world, adopted);
        Run(events + launch, adopted, raised)
  }

  // ---- Safety over every run ------------------------------------------------------------------------------

  /** Right after an adoption the unchanged host shows no last-run drift and no missing role. */
  lemma AdoptionLeavesNoDrift(host: Host)
    ensures DetectLastRun(Enriched(Adopted(host)), Adopted(host).lastRun.value) == []
    ensures PendingNow(Adopted(host)) == []
  {
    OwnSnapshotHasInternalDriftOnly(Enriched(Adopted(host)), Some(true), host.now, false);
  }

  /** The containers are started exactly when the run neither builds an image nor updates the lock nor skips the start,
      and then either adopts a missing baseline, for which PostgreSQL has to be up or come up and the role to be
      creatable, or finds every high-severity drift of its host accepted, and secrets and hooks are fine as well. */
  lemma StartsExactlyWhen(flags: Flags, policy: Policy, world: World, host: Host)
    ensures StartContainers in AfterPrepare(flags, policy, world, host).trace <==>
      && !flags.buildImage && !flags.updateLock && !flags.skipStart
      && (if policy.mountRuntimeConfig && host.lastRun.None?
          then (world.postgresReady || world.postgresStarts) && host.roleCreatable
          else HighDriftAccepted(host, flags.accepted))
      && world.secretsMet && world.hooksSucceed
  {
    hide PendingNow, Adopted, Started, Blocking, Kinds, HighDriftAccepted;
    var adopted := AfterAdoption(policy, world, host);
    if AdoptionSucceeds(policy, world, host) {
      AcceptedAfterAdoption(policy, world, host, flags.accepted);
    }
    AcceptedMeansNotBlocking(adopted, flags.accepted);
    LaunchTrace(flags, world, adopted);
    AdoptionTrace(policy, world, host);
  }

  lemma AcceptedMeansNotBlocking(host: Host, accepted: set<Kind>)
    ensures Blocking(PendingNow(host), accepted) == [] <==> HighDriftAccepted(host, accepted)
  {
    BlockingEmpty(PendingNow(host), accepted);
  }

  /** A host that has just been adopted has nothing left to accept. */
  lemma AcceptedAfterAdoption(policy: Policy, world: World, host: Host, accepted: set<Kind>)
    requires AdoptionSucceeds(policy, world, host)
    ensures HighDriftAccepted(AfterAdoption(policy, world, host), accepted)
      <==> NeedsAdoption(policy, host) || HighDriftAccepted(host, accepted)
  {
    AdoptionLeavesNoDrift(Started(world, host));
  }

  lemma AdoptionTrace(policy: Policy, world: World, host: Host)
    ensures var events := AdoptionEvents(policy, world, host);
      && (RecordBaseline in events <==> NeedsAdoption(policy, host) && AdoptionSucceeds(policy, world, host))
      && (StartPostgres in events <==> NeedsAdoption(policy, host) && !world.postgresReady)
      && (EnsureRole in events <==> NeedsAdoption(policy, host) && (world.postgresReady || world.postgresStarts))
      && StartContainers !in events && CheckDrift !in events && BuildImage !in events
  {
    var events := AdoptionEvents(policy, world, host);
    if NeedsAdoption(policy, host) && !world.postgresReady {
      assert events[0] == StartPostgres;
    }
    if NeedsAdoption(policy, host) && (world.postgresReady || world.postgresStarts) {
      assert events[if world.postgresReady then 0 else 1] == EnsureRole;
      if host.roleCreatable {
        assert events[|events| - 1] == RecordBaseline;
      }
    }
  }

  lemma LaunchTrace(flags: Flags, world: World, host: Host)
    ensures var events := Launch(flags, world, host).0;
      && (StartContainers in events <==>
            Blocking(PendingNow(host), flags.accepted) == [] && world.secretsMet && world.hooksSucceed)
      && CheckDrift in events && BuildImage !in events
      && RecordBaseline !in events && StartPostgres !in events && EnsureRole !in events
  {
    var all := [CheckDrift, CheckSecrets, PreUpHooks, StartContainers];
    assert all[3] == StartContainers && Launch(flags, world, host).0[0] == CheckDrift;
  }

  /** When each other effect happens, over the flags, the policy, the host and the answers of the outside world. */
  lemma EffectsExactlyWhen(flags: Flags, policy: Policy, world: World, host: Host)
    ensures var trace := AfterPrepare(flags, policy, world, host).trace;
      var goesOn := !flags.buildImage && !flags.updateLock && !flags.skipStart;
      var adopts := goesOn && policy.mountRuntimeConfig && host.lastRun.None?;
      && (BuildImage in trace <==> flags.buildImage && policy.allowBuildImage)
      && (WriteDebugProfile in trace <==> !flags.buildImage && policy.includeDebugpy)
      && (ConfigureIde in trace <==> !flags.buildImage && !policy.skipIdeConfig)
      && (StartPostgres in trace <==> adopts && !world.postgresReady)
      && (EnsureRole in trace <==> adopts && (world.postgresReady || world.postgresStarts))
      && (RecordBaseline in trace <==> adopts && (world.postgresReady || world.postgresStarts) && host.roleCreatable)
      && (CheckDrift in trace <==> goesOn && (adopts ==> RecordBaseline in trace))
  {
    hide PendingNow, Adopted, Started, Blocking, Kinds, Launch, AdoptionEvents;
    AdoptionTrace(policy, world, host);
    LaunchTrace(flags, world, AfterAdoption(policy, world, host));
    LaunchChecks(flags, world, AfterAdoption(policy, world, host));
    OpeningTrace(policy, world, host);
  }

  lemma OpeningTrace(policy: Policy, world: World, host: Host)
    ensures WriteDebugProfile in Opening(policy) <==> policy.includeDebugpy
    ensures ConfigureIde in Opening(policy) <==> !policy.skipIdeConfig
    ensures forall e | e in Opening(policy) :: e == WriteDebugProfile || e == ConfigureIde
    ensures forall e | e in AdoptionEvents(policy, world, host) :: e != WriteDebugProfile && e != ConfigureIde
  {
    if !policy.skipIdeConfig {
      assert Opening(policy)[|Opening(policy)| - 1] == ConfigureIde;
    }
    if policy.includeDebugpy {
      assert Opening(policy)[0] == WriteDebugProfile;
    }
  }

  lemma LaunchChecks(flags: Flags, world: World, host: Host)
    ensures forall e | e in Launch(flags, world, host).0 :: e != WriteDebugProfile && e != ConfigureIde
  {
    hide PendingNow, Blocking, Kinds;
  }

  /** What a run leaves behind: starting PostgreSQL may have set up the data directory, and a recorded baseline is that of
      the host with its role created. Nothing else changes. */
  lemma HostAfterRun(flags: Flags, policy: Policy, world: World, host: Host)
    ensures var run := AfterPrepare(flags, policy, world, host);
      var config := if StartPostgres !in run.trace then host.config
                    else host.config.(cluster := host.config.cluster.(dataDirNonempty := world.startedNonempty,
                                                                      pgMajor := world.startedMajor));
      run.host == if RecordBaseline !in run.trace then host.(config := config)
                  else host.(config := config, role := Some(true),
                             lastRun := Some(config.WithRole(Some(true)).ToLastRun(host.now)))
  {
    hide PendingNow, Blocking, Kinds, Launch, AdoptionEvents;
    EffectsExactlyWhen(flags, policy, world, host);
  }

  /** How a run ends: with the first thing that goes wrong, if any. */
  lemma RaisesExactlyWhen(flags: Flags, policy: Policy, world: World, host: Host)
    ensures var raised := AfterPrepare(flags, policy, world, host).raised;
      var adopts := policy.mountRuntimeConfig && host.lastRun.None?;
      if flags.buildImage && !policy.allowBuildImage then raised == Some(BuildImageNotAllowed)
      else if flags.buildImage then raised == if world.imageBuilds then None else Some(BuildFailed)
      else if flags.updateLock || flags.skipStart then raised == None
      else if adopts && !world.postgresReady && !world.postgresStarts then raised == Some(PostgresFailed)
      else if adopts && !host.roleCreatable then raised == Some(RoleNotCreated)
      else if !adopts && !HighDriftAccepted(host, flags.accepted)
      then raised.Some? && raised.value.DriftBlocks? && NamesBlocking(raised.value.kinds, PendingNow(host), flags.accepted)
      else if !world.secretsMet then raised == Some(SecretsMissing)
      else if !world.hooksSucceed then raised == Some(HookFailed)
      else raised == if world.composeExit != 0 then Some(ComposeFailed(world.composeExit)) else None
  {
    hide PendingNow, Adopted, Started, Blocking, Kinds, HighDriftAccepted, NamesBlocking;
    if AdoptionSucceeds(policy, world, host) {
      var adopted := AfterAdoption(policy, world, host);
      AcceptedAfterAdoption(policy, world, host, flags.accepted);
      AcceptedMeansNotBlocking(adopted, flags.accepted);
      BlockingNamed(PendingNow(host), flags.accepted);
    }
  }

  /** A run that starts the containers does so last, after the drift check, which comes after any adoption; the host it
      leaves behind has a baseline wherever it keeps one, and every high-severity drift accepted. */
  lemma StartComesLast(flags: Flags, policy: Policy, world: World, host: Host)
    requires StartContainers in AfterPrepare(flags, policy, world, host).trace
    ensures var run := AfterPrepare(flags, policy, world, host);
      && run.trace ==
           (if policy.includeDebugpy then [WriteDebugProfile] else []) + (if policy.skipIdeConfig then [] else [ConfigureIde])
           + (if policy.mountRuntimeConfig && host.lastRun.None?
              then (if world.postgresReady then [] else [StartPostgres]) + [EnsureRole, RecordBaseline] else [])
           + [CheckDrift, CheckSecrets, PreUpHooks, StartContainers]
      && HighDriftAccepted(run.host, flags.accepted)
      && (policy.mountRuntimeConfig ==> run.host.lastRun.Some?)
  {
    hide PendingNow, Started, Blocking, Kinds, HighDriftAccepted;
    StartsExactlyWhen(flags, policy, world, host);
    AcceptedAfterAdoption(policy, world, host, flags.accepted);
    AcceptedMeansNotBlocking(AfterAdoption(policy, world, host), flags.accepted);
  }

  /** Once drift resolution has returned normally, the drift check never blocks a later run on that host: it starts the
      containers exactly when no flag keeps it from doing so, a baseline that is still missing can be adopted, and
      secrets and hooks are fine. */
  lemma ResolvedRunStarts(h: Host, s: Session, rounds: nat, flags: Flags, policy: Policy, world: World)
    requires RunFor(h, s, rounds).Resolved?
    ensures var host := RunFor(h, s, rounds).host;
      StartContainers in AfterPrepare(flags, policy, world, host).trace <==>
        && !flags.buildImage && !flags.updateLock && !flags.skipStart
        && (policy.mountRuntimeConfig && host.lastRun.None? ==>
              (world.postgresReady || world.postgresStarts) && host.roleCreatable)
        && world.secretsMet && world.hooksSucceed
  {
    ResolvedMeansClear(h, s, rounds);
    StartsExactlyWhen(flags, policy, world, RunFor(h, s, rounds).host);
  }

  // ---- The coordinator --------------------------------------------------------------------------------

  class RuntimeCoordinator {
    const flags: Flags
    const policy: Policy
    const world: World
    var host: Host
    var trace: seq<Event>

    constructor (flags: Flags, policy: Policy, world: World, host: Host)
      ensures this.flags == flags && this.policy == policy && this.world == world
      ensures this.host == host && trace == []
    {
      this.flags, this.policy, this.world, this.host := flags, policy, world, host;
      trace := [];
    }

    /** `handle_build_image`: whether the pipeline stops here. */
    method HandleBuildImage() returns (stop: bool, raised: Option<Failure>)
      modifies this`trace
      ensures stop == flags.buildImage
      ensures trace == old(trace) + if stop && policy.allowBuildImage then [BuildImage] else []
      ensures raised == if !stop then None else if !policy.allowBuildImage then Some(BuildImageNotAllowed)
                        else if world.imageBuilds then None else Some(BuildFailed)
    {
      if !flags.buildImage {
        return false, None;
      }
      if !policy.allowBuildImage {
        return true, Some(BuildImageNotAllowed);
      }
      trace := trace + [BuildImage];
      return true, if world.imageBuilds then None else Some(BuildFailed);
    }

    method AdoptDatabaseBaseline() returns (raised: Option<Failure>)
      modifies this
      ensures raised == Adoption(policy, world, old(host))
      ensures trace == old(trace) + AdoptionEvents(policy, world, old(host))
      ensures host == AfterAdoption(policy, world, old(host))
    {
      if !NeedsAdoption(policy, host) {
        return None;
      }
      ghost var start, before := trace, host;
      if !world.postgresReady {
        trace := trace + [StartPostgres];
        host := Started(world, host);
        if !world.postgresStarts {
          assert trace == start + AdoptionEvents(policy, world, before);
          return Some(PostgresFailed);
        }
      }
      trace := trace + [EnsureRole];
      if !host.roleCreatable {
        assert trace == start + AdoptionEvents(policy, world, before);
        return Some(RoleNotCreated);
      }
      trace := trace + [RecordBaseline];
      assert trace == start + AdoptionEvents(policy, world, before);
      host := host.(role := Some(true));
      host := host.(lastRun := Some(host.config.WithRole(Some(true)).ToLastRun(host.now)));
      raised := None;
    }

    /** The drift check and everything behind it. */
    method CheckAndLaunch() returns (raised: Option<Failure>)
      modifies this`trace
      ensures raised == Launch(flags, world, host).1
      ensures trace == old(trace) + Launch(flags, world, host).0
    {
      ghost var start := trace;
      trace := trace + [CheckDrift];
      var blocking := Blocking(PendingNow(host), flags.accepted);
      if blocking != [] {
        return Some(DriftBlocks(Kinds(blocking)));
      }
      trace := trace + [CheckSecrets];
      if !world.secretsMet {
        assert trace == start + [CheckDrift, CheckSecrets];
        return Some(SecretsMissing);
      }
      trace := trace + [PreUpHooks];
      if !world.hooksSucceed {
        assert trace == start + [CheckDrift, CheckSecrets, PreUpHooks];
        return Some(HookFailed);
      }
      trace := trace + [StartContainers];
      assert trace == start + [CheckDrift, CheckSecrets, PreUpHooks, StartContainers];
      raised := if world.composeExit == 0 then None else Some(ComposeFailed(world.composeExit));
    }

    method RunAfterPrepare() returns (raised: Option<Failure>)
      requires trace == []
      modifies this
      ensures Run(trace, host, raised) == AfterPrepare(flags, policy, world, old(host))
    {
      var stop;
      stop, raised := HandleBuildImage();
      if stop {
        return;
      }
      if policy.includeDebugpy {
        trace := trace + [WriteDebugProfile];
      }
      if !policy.skipIdeConfig {
        trace := trace + [ConfigureIde];
      }
      assert trace == Opening(policy);
      if flags.updateLock || flags.skipStart {
        return None;
      }
      raised := AdoptDatabaseBaseline();
      if raised.Some? {
        return;
      }
      raised := CheckAndLaunch();
    }
  }
}
