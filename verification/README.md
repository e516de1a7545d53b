# odpm, verified

odpm prepares an Odoo workspace: it resolves and checks out git dependencies, builds a compose document, keeps a
database baseline and a virtualenv up to date, and shows the plan of what it will do. This project is a Dafny 4.11
model of the parts that carry state, loops or transformations, with proofs of what they guarantee. Check all of it with

    dafny verify dfyconfig.toml

One module per file:

- **Dependency resolution** — `BreadthFirstOrder` (what a work queue visits, for any graph), `DependencyResolver` (the
  loop, refined to that order).
- **Database** — `DatabaseSchema` (fingerprints, snapshot, JSON form), `DatabaseDrift` (detection), `DriftResolution`
  (the accept-or-ask loop), `RuntimeCoordination` (the run after preparation, as a trace of effects).
- **Compose document** — `ComposeDocument` (the mapping), `SidecarGates`, `NetworkNames`, `VolumeMounts`, `ServiceNames`
  (prefix naming), `LegacyRename`, `ComposePipeline` (all passes in order).
- **Git locks** — `RepoUrl` (canonical URLs), `DepsLocks` (locks and manifest `locks.git`), `LockFile` (the JSON file),
  `LockedCheckout` (what pins make a checkout do), `LockCollection` (collecting and reproducing), `DepsLockManager` (the
  manager and its links), `StrictRun` (when a collected lock passes a strict run).
- **Virtualenv** — `Virtualenv` (the fresh-venv checker with faults at every point).
- **Manifest** — `OdooConf`, `ScenarioOverrides`, `ManifestMigration`.
- **Plan** — `ExtensionRegistry`, `PlanAssembly`.
- **Shared** — `Results`, `Text` (Python string helpers), `Sequences` (duplicate-free lists, subsequences), `Ordering`
  (string order, stable sort).

Objects that the program updates in place are classes here; each method's contract ties its new state to a function of
the old one, and the lemmas are about those functions. Docker, git, pip, prompts and clocks appear as the answers they
give: a callback, an answer stream, a predicate, or a fault that cuts a run short.

Where the code does not do what one would expect, the condition under which it does is proved for all inputs:

- The drift loop never ends exactly when a missing role is accepted while it stays absent
  (`DriftResolution.EndsExactlyWhenNotStuck`).
- Prefix naming preserves references exactly when no list entry already has the physical name of a service its owner
  does not list (`ServiceNames.IsomorphismExactlyWhen`); the legacy rename loses a service exactly when its target name
  is taken (`LegacyRename.LegacyLosesExactlyOnCollision`).
- `canonical_repo_url` is idempotent exactly on stable URLs, a condition on the URL as written; absence of a doubled
  `.git` is not enough (`RepoUrl.CanonicalTwice`, `RepoUrl.QueryHidesDotGit`). A locked dependency is
  compared with its pin only if its URL is stable (`LockedCheckout.LockedDependencyExactlyWhen`), and distinct
  repositories with full commits can still drift (`LockedCheckout.UnstableDependencyDrifts`).
- Locks accept abbreviated commits, but a clone verifies exactly when its pin is a full commit name
  (`LockedCheckout.AtPinExactlyWhen`). A platform whose URL changed is still held at the old commit
  (`LockedCheckout.PlatformPinnedExactlyWhen`). When a collected lock passes a strict run is
  `StrictRun.StrictRunExactlyWhen`.
- An interrupted virtualenv run recovers with the same requirements, but for one kind of cut
  (`Virtualenv.RunRecoversExactlyWhen`); with others, packages can leak or stay missing
  (`Virtualenv.ChangedAfterCutExactlyWhen`, with both cases shown).
- A null database key at the manifest root passes validation exactly when developer and server overlays are declared
  (`ScenarioOverrides.AcceptedExactlyWhenModular`).
- Migration to manifest v2 keeps explicit settings exactly when they are written plainly; a null version, for example,
  becomes the string `None` (`ManifestMigration.MigrationKeepsExactlyWhen`).


## Model

| member | source | states |
|---|---|---|
| BreadthFirstOrder.ExactlyReachable | dev_project/dependency_resolver.py:172-207 | The resolved URLs are duplicate-free and are exactly the URLs that some chain of discoveries reaches from the seeds and extras, cycles included. |
| BreadthFirstOrder.LevelOrder | dev_project/dependency_resolver.py:180-207 | Shortest-path distance from the seeds never decreases along the list: whatever walk reaches a later URL, a walk at most as long reaches an earlier one. |
| BreadthFirstOrder.RootsLead | dev_project/dependency_resolver.py:195-197 | The stripped seeds, then the initial extras, open the list in the given order, each once. |
| BreadthFirstOrder.EntryHasParent | dev_project/dependency_resolver.py:195-207 | Every URL is a seed or extra, or is mentioned by an earlier URL of the list. |
| BreadthFirstOrder.OrderedIsClosed | dev_project/dependency_resolver.py:195-207 | Such an order exists only where the reachable part of the graph is finite, so the finiteness asked of the callback is necessary for termination. |
| BreadthFirstOrder.BreadthFirstUnique | dev_project/dependency_resolver.py:180-207 | A callback determines the list: there is only one breadth-first order. |
| DependencyResolver.ResolveDependencies | dev_project/dependency_resolver.py:158-213 | The queue loop terminates for every callback whose results stay in a finite set; its list is the breadth-first order and holds exactly the given URLs and those that discoveries of listed URLs mention, stripped, each after one that mentions it; `discover` is called once per URL in that order, the already-processed guard is never taken, and requirements and fragments are the first occurrences over that order. |
| DependencyResolver.ResolveDependencyUrls | dev_project/dependency_resolver.py:216-239 | URL discovery alone returns exactly the reachable URLs, in breadth-first order. |
| DependencyResolver.Enqueue | dev_project/dependency_resolver.py:180-186 | Queue plus everything taken from it before is extended by the stripped, non-blank, not yet queued URLs, in order; the `queued` set stays its set of members. |
| DependencyResolver.RecordDiscovery | dev_project/dependency_resolver.py:188-193 | Requirements gain the new stripped ones; a fragment is kept only if no earlier one has its path. |
| DependencyResolver.AppendUniqueStrings | dev_project/dependency_resolver.py:148-155 | The target is extended by the stripped, non-blank, new items, in order. |
| DependencyResolver.FirstFragmentsAreFirst | dev_project/dependency_resolver.py:188-193 | The kept fragments are exactly those of the earliest URL that supplies their path. |
| DependencyResolver.FragmentPathsCovered | dev_project/dependency_resolver.py:188-193 | Every path that any discovered URL supplies is among the kept fragments. |
| DatabaseSchema.LastRunRoundTrip | dev_project/database/schema.py:133-180 | A snapshot survives `to_dict`/`from_dict` unchanged exactly when its schema version is the supported one; any other is refused. |
| DatabaseSchema.SparseReads | dev_project/database/schema.py:133-180 | What a snapshot reads as where the optional keys are missing. |
| DatabaseSchema.Unversioned | dev_project/database/schema.py:153-171 | A snapshot without a version or of another engine is refused. |
| DatabaseSchema.ComposeRoundTrip | dev_project/database/schema.py:14-53 | The compose fingerprint survives its dictionary form, optional fields included. |
| DatabaseSchema.ClusterRoundTrip | dev_project/database/schema.py:78-107 | The cluster fingerprint survives its dictionary form, unknown values included. |
| DatabaseDrift.NoLastRunDrift | dev_project/database/drift.py:95-158 | No last-run drift is detected exactly when every compared field agrees. |
| DatabaseDrift.CompareMembers | dev_project/database/drift.py:95-158 | A drift of a kind is detected exactly where that kind's field differs, with the recorded and the observed value; which field that is says `DetectedFields`. |
| DatabaseDrift.DetectedFields | dev_project/database/drift.py:95-158 | Which field each kind compares, and the order: one drift for each of the seven fields that differs, showing the recorded and then the observed value. |
| DatabaseDrift.DetectedExactly | dev_project/database/drift.py:68-179 | Everything that is detected, in order: those or the first run, a configured host that is not the database service, an absent role. |
| DatabaseDrift.NothingDetected | dev_project/database/drift.py:68-179 | Nothing at all is detected exactly when there is a snapshot that agrees in the compared fields, the configured host is the database service or is not checked, and the role is not absent. |
| DatabaseDrift.PendingShape | dev_project/database/drift.py:161-231 | What needs resolution: the resolvable comparisons in detection order, then a missing role. |
| DatabaseDrift.PendingFields | dev_project/database/drift.py:161-231 | The same over the fields: a moved data directory, a changed image, scenario and state of the data directory, then an absent role, and no other difference. |
| DatabaseDrift.OwnSnapshotHasInternalDriftOnly | dev_project/database/drift.py:68-179 | A state compared with its own snapshot shows internal drift only, and leaves at most the missing role to resolve. |
| DatabaseDrift.ContainerSnapshotDrift | dev_project/container_config/database_context.py:23-113 | A snapshot taken from the container context of the same host state differs at most in `compose_project_name`, and adds nothing that requires resolution. |
| DriftResolution.RoundClears | dev_project/database/resolve.py:215-229 | A round goes on exactly when the first pending drift is accepted or answered; it then clears every last-run drift whatever its kind, and only an absent role stays pending. |
| DriftResolution.AcceptedAbsentRoleStutters | dev_project/database/resolve.py:172-181 | Accepting a missing role while it is absent makes a round that leaves the pending set unchanged. |
| DriftResolution.EndsWithinTwoRounds | dev_project/database/resolve.py:215-229 | Unless stuck, the loop ends after at most two accepting or resolving rounds, for every answer stream. |
| DriftResolution.StuckNeverEnds | dev_project/database/resolve.py:215-229 | A stuck loop never ends. |
| DriftResolution.EndsExactlyWhenNotStuck | dev_project/database/resolve.py:215-229 | The loop ends if and only if it is not stuck: role absent, its absence accepted, and nothing that stops the loop first. |
| DriftResolution.ResolvedMeansClear | dev_project/database/resolve.py:215-229 | A normal return leaves nothing to resolve, changes the baseline only if something was pending, and the final blocking check never fires. |
| DriftResolution.UnattendedResolution | dev_project/database/resolve.py:194-229 | Without a terminal and with the role not absent, resolution succeeds exactly when nothing is pending or the first pending kind is accepted; otherwise the error names every pending kind. |
| DriftResolution.ResolvesExactlyWhen | dev_project/database/resolve.py:194-229 | In general resolution succeeds exactly when nothing is pending, or the first drift passes and a role still absent is then created. |
| DriftResolution.OutcomeStable | dev_project/database/resolve.py:215-229 | Once the loop has ended, a larger number of rounds does not change its outcome. |
| DriftResolution.DatabaseHost.SaveCurrentBaseline | dev_project/database/state.py:161-176 | The snapshot becomes that of the current configuration at the current time, with the probed or assumed role; nothing else changes. |
| DriftResolution.DatabaseHost.PromptChoice | dev_project/database/resolve.py:110-117 | Answers are consumed up to and including the first valid one, compared stripped and in lower case. |
| DriftResolution.TypedExactlyWhen | dev_project/database/resolve.py:110-117 | An answer counts as a letter exactly when it is that letter, small or capital, between white space. |
| DriftResolution.AskedExactly | dev_project/database/resolve.py:136-207 | Over the typed characters: which letters each kind of drift offers, that everything before the first of them is skipped, which one goes on, and the host it leads to, snapshot and role included. |
| DriftResolution.AskedInVain | dev_project/database/resolve.py:110-117 | Without an offered letter the input is used up and runs out. |
| DriftResolution.DatabaseHost.ResolveInteractive | dev_project/database/resolve.py:136-207 | What each answer does to baseline, role and answers, for every drift kind. |
| DriftResolution.DatabaseHost.EnsureNoBlockingDrift | dev_project/database/resolve.py:90-107 | Raises if and only if some pending high-severity drift is not accepted; the error names exactly the kinds of those drifts, in detection order. |
| DriftResolution.DatabaseHost.ResolveDatabaseDrifts | dev_project/database/resolve.py:215-229 | The `while True` loop, on every input on which it ends, refines the round-by-round specification that the lemmas are about. |
| RuntimeCoordination.StartsExactlyWhen | dev_project/runtime_coordinator.py:55-160 | Containers are started exactly when the run neither builds an image nor updates the lock nor skips the start, a missing baseline is adopted with PostgreSQL up and the role creatable or else every high-severity drift is accepted, secrets are met and hooks succeed. |
| RuntimeCoordination.EffectsExactlyWhen | dev_project/runtime_coordinator.py:55-160 | When each other effect happens, by flag, policy, host and answers: image build, debug profile, IDE files, PostgreSQL start, role creation, recording and drift check. |
| RuntimeCoordination.HostAfterRun | dev_project/database/adopt.py:83-112 | A run changes the host only by what starting PostgreSQL leaves in the data directory and by a recorded baseline, whose content is given. |
| RuntimeCoordination.RaisesExactlyWhen | dev_project/runtime_coordinator.py:55-160 | How every run ends: with the first thing that goes wrong, which is named, or with nothing. |
| RuntimeCoordination.StartComesLast | dev_project/runtime_coordinator.py:119-160 | The exact effects of a run that starts the containers: IDE preparation, adoption where a baseline was missing, and then drift check, secrets, hooks and the start as the last one. |
| RuntimeCoordination.AdoptionLeavesNoDrift | dev_project/database/adopt.py:83-112 | Right after an adoption the unchanged host shows no last-run drift and no missing role. |
| RuntimeCoordination.ResolvedRunStarts | dev_project/runtime_coordinator.py:119-160 | Once drift resolution has returned normally, the drift check never blocks a later run on that host: containers start exactly when no image build, lock update or skipped start was asked for, a still missing baseline can be adopted, secrets are met and hooks succeed. |
| DriftResolution.BlockingEmpty | dev_project/database/resolve.py:90-99 | Nothing blocks exactly when every high-severity drift is accepted. |
| DriftResolution.HighDriftExactlyWhen | dev_project/database/resolve.py:90-107 | Over the two states: a moved data directory, a changed image and an absent role have to be accepted, and nothing else. |
| RuntimeCoordination.RuntimeCoordinator.RunAfterPrepare | dev_project/runtime_coordinator.py:119-160 | The coordinator's effects, host and outcome are those of the run the lemmas are about, for every combination of flags, policy and answers of the outside world. |
| RuntimeCoordination.RuntimeCoordinator.AdoptDatabaseBaseline | dev_project/database/adopt.py:46-112 | Adoption is skipped, fails or records the baseline, with its events in order; the snapshot is taken after PostgreSQL was started and may have set up its data directory. |
| SidecarGates.ParseSidecarGates | dev_project/compose/sidecar_gates.py:20-44 | Missing gates parse to none, a wrong shape or the first bad entry raises; otherwise exactly the given switches are in force, and none is for `db` or `odoo`. |
| SidecarGates.GatesAcceptedExactlyWhen | dev_project/compose/sidecar_gates.py:20-44 | Entries are accepted exactly when every one is a boolean for a name other than `db` and `odoo`. |
| SidecarGates.FirstBadGate | dev_project/compose/sidecar_gates.py:20-44 | The first bad entry is the one complained about, for its name before its value. |
| SidecarGates.ApplySidecarGates | dev_project/compose/sidecar_gates.py:47-72 | Kept are, in order, exactly the services whose gate is open or missing, and dropped the names of those whose gate is closed. |
| SidecarGates.KeptInOrder | dev_project/compose/sidecar_gates.py:47-72 | Gating keeps the order of what remains. |
| SidecarGates.ScrubServiceDeps | dev_project/compose/sidecar_gates.py:75-85 | List-form `depends_on` and `links` lose the dropped names and nothing else. |
| ComposeDocument.ReferencesByField | dev_project/compose/sidecar_gates.py:79-85 | The two kinds of reference are the entries of the two list fields. |
| SidecarGates.ScrubbedReferences | dev_project/compose/sidecar_gates.py:75-85 | Scrubbing removes exactly the references to dropped services. |
| SidecarGates.GatedReferences | dev_project/compose/compose_document.py:185-214 | After gating and scrubbing a reference survives exactly when both ends do, and a closed document stays closed. |
| SidecarGates.BuiltinsSurvive | dev_project/compose/sidecar_gates.py:20-72 | Parsed gates can never remove `db` or `odoo`. |
| VolumeMounts.JoinSplit | dev_project/compose/service_names.py:144-151 | Splitting a mount at its colons and joining again gives the mount back. |
| VolumeMounts.RedirectChangesSourceOnly | dev_project/compose/service_names.py:144-151 | Only mounts of the logical postgres volume change, and only in their source. |
| VolumeMounts.RedirectedSource | dev_project/compose/service_names.py:144-151 | A redirected mount mounts the physical volume. |
| ServiceNames.SlugCharsListed | dev_project/compose/service_names.py:19 | The characters of a prefix one by one, and those it may start with. |
| ServiceNames.ResolvedNamesDiffer | dev_project/compose/service_names.py:22-97 | Every prefix that is accepted yields physical names that differ from the logical ones and from each other. |
| ServiceNames.ResolvedNames | dev_project/compose/service_names.py:22-97 | With a prefix, spelled in any case between white space and given one dash at its end, each physical name is that prefix and the logical name, and the project name the prefix without its dashes. |
| ServiceNames.UnprefixedNames | dev_project/compose/service_names.py:60-72 | Where no prefix is spelled only the database has a name of its own. |
| ServiceNames.RenameServiceKeys | dev_project/compose/service_names.py:166-175 | Raises exactly when two services share a physical name; otherwise the renamed dictionary keeps number and order. |
| ServiceNames.DistinctKeysExactlyWhen | dev_project/compose/service_names.py:123-175 | Renamed keys stay distinct exactly when the name map is injective on the services, whatever the dictionary order. |
| ServiceNames.RenamedInOrder | dev_project/compose/service_names.py:154-203 | The services that are mappings become their images, in their order; the others are dropped. |
| ServiceNames.RewriteServiceNameList | dev_project/compose/service_names.py:132-141 | Each string entry becomes its physical name; other entries stay. |
| ServiceNames.IsomorphismExactlyWhen | dev_project/compose/service_names.py:123-203 | Without collisions, `a` refers to `b` exactly when the renamed `a` refers to the renamed `b`, in `depends_on` and `links` each, if and only if no list entry already has the physical name of a service that its owner does not list. |
| ServiceNames.RenamingIsIsomorphism | dev_project/compose/service_names.py:123-203 | For a document whose references are all to services, renaming without collisions is an isomorphism, and the result is closed. |
| ServiceNames.DanglingReferenceIsCaptured | dev_project/compose/service_names.py:132-141 | Under every naming, a dangling reference to the physical postgres name turns into a reference between two services that had none. |
| ServiceNames.NoLogicalNameSurvives | dev_project/compose/service_names.py:178-203 | After the prefix rewrite no key and no list entry is `db` or `odoo`, and no mount uses the logical volume. |
| ComposePipeline.BuildMountsDeclaredVolume | dev_project/compose/service_names.py:144-203 | The mounts of the finished document are exactly those of the services that are not gated off: each mount of the logical postgres volume moves, with its tail, to the one declared volume, which keeps its declaration; other mounts stay. |
| ServiceNames.PrefixTwice | dev_project/compose/service_names.py:178-203 | A second prefix rewrite changes nothing and cannot collide. |
| LegacyRename.LegacyLosesExactlyOnCollision | dev_project/compose/service_names.py:206-232 | The legacy rename keeps every service exactly when the legacy name is free; otherwise one service is silently overwritten. |
| LegacyRename.LegacyRenamesLikePrefix | dev_project/compose/service_names.py:206-232 | With the legacy name free it yields the same services as a rename would, in another order. |
| NetworkNames.ResolvedNetwork | dev_project/compose/network_names.py:34-100 | A network name, spelled in any case between white space, is attached and rewritten, to the prefix and that name unless it is external. |
| NetworkNames.NoNetwork | dev_project/compose/network_names.py:34-84 | Any other setting is no network, and nothing is attached. |
| NetworkNames.ExternalExactlyWhen | dev_project/compose/network_names.py:52-67 | Exactly five words, in any case, make a network external. |
| NetworkNames.AttachKeepsExplicitEntries | dev_project/compose/network_names.py:102-121 | Attaching adds no network but the logical one: the services keep within a set of networks that contains it exactly when they did before. |
| NetworkNames.RewrittenEntries | dev_project/compose/network_names.py:124-164 | After the rewrite every entry is the physical network exactly when every entry was the logical or the physical one. |
| NetworkNames.RewriteNetworkNameList | dev_project/compose/network_names.py:124-137 | The logical network's name is replaced in place; other entries stay. |
| NetworkNames.SameReferences | dev_project/compose/network_names.py:102-164 | Passes that touch network fields only leave services and references as they were. |
| ComposePipeline.NamingIsIsomorphismExactlyWhen | dev_project/compose/service_names.py:235-247 | Whichever branch runs (prefix, legacy, none), naming is an isomorphism of the reference graph if and only if it captures nothing. |
| ComposePipeline.NamingIsIsomorphism | dev_project/compose/service_names.py:235-247 | In a closed document it captures nothing, and the result is closed. |
| ComposePipeline.BuildKeepsServices | dev_project/compose/compose_document.py:185-214 | The services of the finished document are exactly those whose gate is open or missing, the database and Odoo under their physical names and the others under their own. |
| ComposePipeline.BuiltDeclarations | dev_project/compose/compose_document.py:185-214 | The finished document declares one network, under its physical name and as external or managed, and has the project name that goes with the prefix. |
| ComposePipeline.BuildKeepsReferences | dev_project/compose/compose_document.py:185-214 | For any document, the references between any two services that are not gated off are exactly those between their physical names in the finished document, if and only if naming the drafted services captures nothing; a closed document captures nothing and stays closed. |
| ComposePipeline.NetworkValidationExactlyWhen | dev_project/compose/validate.py:135-152 | Network validation of the finished document accepts exactly when every explicit network entry is the logical network or, where it is rewritten, the physical one. |
| ComposePipeline.BuildComposeDocument | dev_project/compose/compose_document.py:185-214 | Gating, scrubbing, attachment and naming in this order produce the document the lemmas are about; it raises exactly when the naming does. |
| ComposePipeline.ComposeFile.AttachLogicalNetwork | dev_project/compose/network_names.py:102-121 | The document afterwards: the network declared, services attached. |
| ComposePipeline.ComposeFile.ApplyPrefix | dev_project/compose/service_names.py:178-203 | Raises, leaving the document alone, exactly when two services collide; otherwise keys, lists, mounts and volume are renamed. |
| ComposePipeline.ComposeFile.ApplyLegacyRename | dev_project/compose/service_names.py:206-232 | The document after moving `db` to its legacy name; raises exactly when `db` is there but not a mapping. |
| ComposePipeline.ComposeFile.ApplyNetwork | dev_project/compose/network_names.py:140-164 | The document after the network rename. |
| ComposePipeline.ComposeFile.ApplyPhysicalNames | dev_project/compose/service_names.py:235-247 | Prefix, legacy rename and network rename in order, stopping at the first that raises. |
| RepoUrl.SshExactlyWhen | dev_project/git/deps_lock.py:140-149 | A word is in the `git@host:path` form exactly when host and path are not empty, the host ending at the first colon. |
| RepoUrl.SpellingsAgree | dev_project/git/deps_lock.py:134-157 | `git@host:path`, `http://` and `https://` spellings of one repository, with or without `.git` and trailing slashes, canonicalise to one string. |
| RepoUrl.CanonicalIdentifies | dev_project/git/deps_lock.py:134-157 | Two such URLs, in whatever spellings, canonicalise to the same string exactly when their hosts are equal but for ASCII case, character by character, and their paths are equal. |
| RepoUrl.TokenOfLine | dev_project/git/deps_lock.py:134-137 | White space before the URL and anything after it, such as a branch, does not matter. |
| RepoUrl.CanonicalTwice | dev_project/git/deps_lock.py:134-157 | Canonicalising a canonical URL changes nothing if and only if the URL as written is stable, a predicate on its normalised word, branch by branch (file, `git@`, http(s), bare); otherwise the second pass shortens it. |
| RepoUrl.SettledExactlyWhen | dev_project/git/deps_lock.py:134-157 | The canonical form of a word is final exactly when the word is stable. |
| RepoUrl.SpellingsStable | dev_project/git/deps_lock.py:134-157 | Every `git@`, `http://` and `https://` spelling of a plain host and path, with or without `.git` and slashes, is stable. |
| RepoUrl.UnstableExample | dev_project/git/deps_lock.py:134-157 | `https://h/p.git?q` canonicalises to `https://h/p.git`, and that to `https://h/p`. |
| RepoUrl.QueryHidesDotGit | dev_project/git/deps_lock.py:134-157 | Without any doubled suffix, a query hides a `.git` from the first pass only, so no such URL is stable. |
| Ordering.SortSorted | dev_project/git/deps_lock.py:232-233 | Sorting lock entries, and names elsewhere, yields a sorted sequence. |
| Ordering.StringLeqExactlyWhen | dev_project/extensions/registry.py:239-253 | The string order in use: a prefix comes first, else the smaller character at the first difference. |
| Ordering.SortStable | dev_project/git/deps_lock.py:232-233 | Sorting is stable: items that tie keep their order. |
| Ordering.SortMultiset | dev_project/git/deps_lock.py:232-233 | Sorting permutes. |
| DepsLocks.GitLocksFromLock | dev_project/manifest/locks.py:47-53 | The map holds platform, developing and dependency commits, a later entry with the same URL winning in place. |
| DepsLocks.PutAllCommit | dev_project/manifest/locks.py:47-53 | A URL has the commit of the last entry written with it. |
| DepsLocks.PutAllKeys | dev_project/manifest/locks.py:47-53 | The keys are the entries' URLs in the order of first mention. |
| DepsLocks.LookupFinds | dev_project/manifest/locks.py:33-44 | A link to a locked repository, in any spelling, finds that repository's commit. |
| DepsLocks.LookupMisses | dev_project/manifest/locks.py:33-44 | A link to any other repository finds nothing. |
| DepsLocks.LockFromManifest | dev_project/manifest/locks.py:113-148 | Raises exactly when the platform link is not locked; otherwise the rebuilt lock. |
| DepsLocks.ManifestRoundTripExactlyWhen | dev_project/manifest/locks.py:47-148 | Turning a lock into `locks.git` and rebuilding it, for any order and spelling of the dependency links, gives the same platform, developing and dependency commits in the same order if and only if the dependencies are in the order of their keys canonicalised once more; branch and kind are lost. |
| DepsLocks.ManifestRoundTrip | dev_project/manifest/locks.py:47-148 | So a sorted lock whose dependency URLs are stable survives. |
| DepsLocks.CompareLocks | dev_project/manifest/locks.py:56-86 | Over the keys and commits of both sides: which repositories are reported as differing, as only in the manifest and as only in the lock file, empty commits included, in URL order; nothing is reported exactly when both sides give the same commits to the same repositories. |
| DepsLocks.NormalizedExactlyWhen | dev_project/manifest/locks.py:56-61 | The canonical map holds, for exactly the repositories that some key means, the commit of the last such key. |
| DepsLocks.NoDivergenceExactlyWhen | dev_project/manifest/locks.py:64-86 | The maps are equal exactly when both sides give the same commits to the same repositories. |
| DepsLocks.NoDivergenceMeansEqual | dev_project/manifest/locks.py:64-86 | No repository diverges exactly when the two maps are equal. |
| LockFile.EntryRoundTripExactlyWhen | dev_project/git/deps_lock.py:32-63 | An entry survives `to_dict`/`from_dict` if and only if its URL is stripped and not blank, its commit has 7 to 40 hexadecimal digits, its branch is not empty, and a file URL is not called a git entry. |
| LockFile.EntryReadExactlyWhen | dev_project/git/deps_lock.py:41-64 | Which entries are read and as what: a URL, a commit of 7 to 40 digits and a known kind or none, all stripped. |
| LockFile.LockRoundTripExactlyWhen | dev_project/git/deps_lock.py:75-127 | A lock with its time and service sources survives the file exactly when it has a platform and every entry is writable. |
| LockFile.CollectedLoadsExactlyWhen | dev_project/git/deps_lock_manager.py:185-210 | The lock that update-lock collects can be written and loads unchanged if and only if what is recorded of every covered link has the form of a commit, explicit branches have a name, and only local links are file URLs. |
| LockedCheckout.CommitsListed | dev_project/git/deps_lock.py:21 | The digits of a commit one by one, and how many of them a lock accepts. |
| LockedCheckout.AtPinExactlyWhen | dev_project/git/checkout.py:82-95 | A clone that is pinned and checked out is at its pin exactly when the pin is a full commit name; a tree outside git exactly when it already is what the pin says. |
| LockedCheckout.VerifiesExactlyWhen | dev_project/git/deps_lock_manager.py:119-183 | After applying a lock with distinct repositories and checking out, verification reports nothing if and only if every compared pin survives: with a stable URL, or outside git, it has to hold; a clone with another URL has to end up at it by the pin of the entry that is applied instead, or else by its own commit, branch, version and update. |
| LockedCheckout.AppliedElsewhereSurvives | dev_project/git/deps_lock_manager.py:144-183 | A remote clone with an unstable URL that an entry with a full commit is applied to passes exactly when the entry it is compared with has the same commit. |
| LockedCheckout.UnstableDependencyDrifts | dev_project/git/deps_lock_manager.py:144-183 | Distinct repositories and full commits do not rule out drift: with entries for `https://h/p.git?q` and `https://h/p.git`, a dependency at the former is moved to the commit of the latter and compared with its own. |
| LockedCheckout.VerifiesExactlyWhenPinsHold | dev_project/git/deps_lock_manager.py:119-183 | Where the compared dependencies have stable URLs: if and only if every compared pin holds, whatever the links' own pins and whether or not updating was requested. |
| LockedCheckout.NoIssuesExactlyWhen | dev_project/git/deps_lock_manager.py:435-454 | Verification finds nothing exactly when every checked repository's current commit equals its pin. |
| LockedCheckout.DependencyPinnedExactlyWhen | dev_project/git/deps_lock_manager.py:144-158 | For every usable dependency: with a stable URL it counts as pinned exactly when an entry was applied to it; with any other URL exactly when that URL happens to be the key of an entry applied elsewhere. |
| LockedCheckout.PinnedExactlyWhenKeyApplied | dev_project/git/deps_lock_manager.py:119-158 | A URL counts as pinned exactly when it is the key of an entry that was applied to some link. |
| LockedCheckout.DevelopingAfterSync | dev_project/project_env/links.py:56-70 | What becomes of the developing project in every case: a local or missing one is not touched, its entry pins it unless the user is a developer, then its own commit or branch counts, and a developer's checkout without either stays. |
| LockedCheckout.LinksAfterSync | dev_project/git/deps_lock_manager.py:119-155 | What becomes of the platform and of every dependency: at the commit of the entry for it, else at its own commit, branch or the version, and pulled only where asked to and not pinned. |
| LockedCheckout.IssuesExactlyWhen | dev_project/git/deps_lock_manager.py:435-455 | Verification reports exactly the checks whose repository is not at the entry's commit, with what was found, and those of which it cannot be said. |
| LockedCheckout.SeedMissingExactlyWhen | dev_project/git/deps_lock_manager.py:391-400 | A seed is reported exactly when no entry means its repository. |
| LockedCheckout.DevelopingStaleExactlyWhen | dev_project/git/deps_lock_manager.py:415-434 | The developing entry is reported exactly when the user is no developer and the project is missing, local or another repository. |
| LockedCheckout.PlatformPinnedExactlyWhen | dev_project/git/deps_lock_manager.py:119-124 | A platform clone is moved to the locked commit whatever repository its link names; it counts as pinned if and only if the link has the entry's URL, unless another applied entry has it. |
| LockedCheckout.LockedDependencyExactlyWhen | dev_project/git/deps_lock_manager.py:144-183 | For any lock of distinct repositories and any workspace, a dependency whose repository is locked gets its entry applied; it counts as pinned if and only if its URL is stable or keys another applied entry, is compared with its entry if and only if its URL is stable and it is the first with that URL, and the entry is reported as stale if and only if the URL is not stable and no dependency goes by its key. |
| LockedCheckout.UnstableDependencyEscapes | dev_project/git/deps_lock_manager.py:144-183 | A dependency at `https://h/p.git?q` with its collected entry: applied, not pinned, not compared, reported as stale. |
| LockedCheckout.StaleExactlyWhen | dev_project/git/deps_lock_manager.py:401-413 | An entry is reported as stale exactly when no dependency has its key for a URL. |
| LockedCheckout.FirstEntryFinds | dev_project/git/deps_lock.py:257-266 | Among distinct repositories the lookup finds the one entry with the URL, whichever part of the lock holds it. |
| LockCollection.CollectedRecords | dev_project/git/deps_lock_manager.py:185-210 | The collected lock describes every repository of the workspace and nothing else. |
| LockCollection.Reproduces | dev_project/git/deps_lock_manager.py:119-183 | From any state of the same repositories, applying a lock that records a workspace and checking out brings every locked repository back to the recorded commit, and verification finds nothing. |
| LockCollection.CollectedReproduces | dev_project/git/deps_lock_manager.py:185-210 | Update-lock followed by a later run in another scenario reproduces the recorded workspace. |
| StrictRun.StrictRunExactlyWhen | dev_project/git/deps_lock_manager.py:104-210 | Update-lock followed by a strict run on the same repositories passes if and only if every seed is covered, the URLs of developing and dependencies are stable, and what was recorded of each link can be restored: a full commit name in a clone, what is already there in a tree or file clone. |
| StrictRun.StrictRunRestores | dev_project/git/deps_lock_manager.py:104-210 | A strict run that passes leaves every covered link at what update-lock recorded of it. |
| StrictRun.NotStaleMeansStable | dev_project/git/deps_lock_manager.py:401-413 | If no collected entry is stale, every dependency's URL is stable, whatever chains of unstable URLs there might be. |
| LockCollection.ManifestReproduces | dev_project/manifest/locks.py:47-148 | The same by way of manifest `locks.git`, although branches and kinds are lost. |
| LockCollection.RecordsIdentified | dev_project/git/deps_lock_manager.py:185-210 | A lock of distinct repositories identifies every entry by its canonical URL. |
| DepsLockManager.Manager.Load | dev_project/git/deps_lock_manager.py:69-99 | Manifest locks win where there are some; an unusable one raises in strict mode and otherwise falls back to the file. |
| DepsLockManager.Manager.ApplyToPlatform | dev_project/git/deps_lock_manager.py:119-124 | Pins the platform and records the entry's URL, or changes nothing. |
| DepsLockManager.Manager.ApplyToDeveloping | dev_project/git/deps_lock_manager.py:126-142 | Skipped for developers; reports a stale entry; pins remote links only. |
| DepsLockManager.Manager.ApplyToDependencies | dev_project/git/deps_lock_manager.py:144-155 | Reports missing seeds and stale entries in order; unless that raised, every dependency with an entry is pinned and recorded. |
| DepsLockManager.Manager.ApplyPinnedLocks | dev_project/git/deps_lock_manager.py:247-251 | Platform, developing and dependencies together, with all reports in order. |
| DepsLockManager.Manager.VerifyAfterCheckout | dev_project/git/deps_lock_manager.py:160-183 | In strict mode it passes exactly when every checked repository is at its pin and otherwise raises the first issue; outside it, it logs every issue. |
| DepsLockManager.Manager.CheckoutDependencies | dev_project/project_env/links.py:56-96 | Platform, developing where wanted, and all dependencies are checked out; pinned ones are not updated. |
| DepsLockManager.Manager.CollectAndSave | dev_project/git/deps_lock_manager.py:185-210 | The lock that is written, or none where some commit cannot be resolved. |
| DepsLockManager.Manager.Run | dev_project/git/deps_lock_manager.py:104-183 | Apply, check out, verify: in strict mode the whole run passes if and only if nothing is missing or stale and every compared pin survives. |
| DepsLockManager.Link.ApplyEntry | dev_project/git/deps_lock.py:273-278 | The link's commit becomes the pin, its branch only where the entry names one. |
| DepsLockManager.Link.Checkout | dev_project/git/checkout.py:82-152 | HEAD moves to the explicit commit, else to the explicit branch, else to the version; only links without an explicit commit are pulled. |
| Virtualenv.HistoryEndsFresh | dev_project/inside_docker_app/check_virtualenv.py:73-104 | Over any sequence of configurations, with any number of runs cut short as long as each configuration is finished before the next, the venv ends as a fresh build of the latest one: base packages and its managed distributions, nothing else. |
| Virtualenv.RunRecoversExactlyWhen | dev_project/inside_docker_app/check_virtualenv.py:73-199 | For every venv and every two points at which a run may be cut short, running again with the same requirements gives the same packages, locks and verdict as an uninterrupted run, if and only if the cut did not hit the deletion of a venv on the fast path in such a way that the next sync puts back what the smoke test needs. |
| Virtualenv.RunRecovers | dev_project/inside_docker_app/check_virtualenv.py:73-199 | So every cut is recovered from where the smoke test does not need the extras. |
| Virtualenv.SmokeTestedExtraLost | dev_project/inside_docker_app/check_virtualenv.py:73-199 | With an extra that the smoke test needs, a deletion cut short can leave a venv without its base packages that the next run takes for good. |
| Virtualenv.InterruptedSyncRecovers | dev_project/inside_docker_app/check_virtualenv.py:174-199 | An interrupted sync leaves a state from which the full sync reaches the same result, and the stamp does not match before. |
| Virtualenv.FastPathAgreesExactlyWhen | dev_project/inside_docker_app/check_virtualenv.py:174-178 | Skipping on a matching stamp gives what the full sync gives exactly when no managed distribution was removed by hand. |
| Virtualenv.SyncReachesFreshExactlyWhen | dev_project/inside_docker_app/check_virtualenv.py:174-199 | Going from one configuration to another reaches the state of a fresh build exactly when no dropped distribution is a base package. |
| Virtualenv.StampDeterminesNames | dev_project/config/payload.py:51-54 | Requirements with the same stamp manage the same distributions. |
| Virtualenv.PreviousOfNew | dev_project/inside_docker_app/extras_sync.py:34-67 | Reading the extras lock gives back the distributions that were written. |
| Virtualenv.RunReachesFresh | dev_project/inside_docker_app/check_virtualenv.py:73-86 | One uninterrupted run ends as a fresh build and succeeds exactly when the smoke test passes there. |
| Virtualenv.ChangedAfterCutExactlyWhen | dev_project/inside_docker_app/check_virtualenv.py:73-199 | After any interrupted sync, a run with whatever requirements ends as a fresh build of them if and only if the lock hash has changed, or, said over the cut: nothing removed is wanted back on the fast path, nothing added is neither wanted nor managed before, and with an unreadable extras lock everything interim is wanted. |
| Virtualenv.UnparsedRunExactlyWhen | dev_project/inside_docker_app/check_virtualenv.py:163-199 | With a line that does not parse a run succeeds if and only if it takes the fast path and passes the smoke test. |
| Virtualenv.AfterUnparsedExactlyWhen | dev_project/inside_docker_app/check_virtualenv.py:163-199 | A line that pip installs and the parser refuses leaves `.lock` and the installed extras behind; the next run with requirements that parse ends as a fresh build if and only if pip had refused some line or all that was installed is wanted. |
| Virtualenv.RevertedUninstallStaysMissing | dev_project/inside_docker_app/check_virtualenv.py:73-178 | Going back to the old requirements after an interrupted uninstall takes the fast path: the run succeeds, and what was removed stays missing. |
| Virtualenv.AbandonedInstallStays | dev_project/inside_docker_app/check_virtualenv.py:73-199 | What an interrupted install added and the next requirements do not want is never uninstalled; the run succeeds. |
| Virtualenv.VirtualenvChecker.SyncExtrasRequirements | dev_project/inside_docker_app/check_virtualenv.py:174-199 | Installed packages and locks after the sync, for every point at which it can be cut short. |
| Virtualenv.VirtualenvChecker.RecreateVenv | dev_project/inside_docker_app/check_virtualenv.py:163-172 | The rebuilt venv; `.lock` is written before the extras lock, so a cut between the two, or a line that pip accepts and the parser does not, leaves only the former. |
| Virtualenv.VirtualenvChecker.InstallExtraPackages | dev_project/bake_venv.py:470-474 | Lines are installed in order up to the first that pip refuses. |
| Virtualenv.ExtrasAreManaged | dev_project/inside_docker_app/extras_sync.py:24-31 | Of requirements that parse, pip installs exactly the managed distributions. |
| Virtualenv.VirtualenvChecker.EnsureFreshVenv | dev_project/inside_docker_app/check_virtualenv.py:73-86 | Sync or rebuild, smoke test, rebuild once more where it fails. |
| OdooConf.NormalizeSections | dev_project/manifest/odoo_conf.py:26-40 | Sections that are objects and keep at least one value; nulls are dropped. |
| OdooConf.MergeSections | dev_project/manifest/odoo_conf.py:43-55 | The merge has every section of either side, the override's values on top. |
| OdooConf.MergedLookup | dev_project/manifest/odoo_conf.py:43-55 | A merged option has the override's value where there is one, else the base's. |
| OdooConf.NormalizedLookup | dev_project/manifest/odoo_conf.py:26-40 | An option is present after normalisation exactly when its section is an object that gives it a value. |
| OdooConf.ValidateOdooConf | dev_project/manifest/odoo_conf_policy.py:65-92 | Accepts exactly when the options hold no key frozen for the scenario, nulls included; a rejection names such a key. |
| ScenarioOverrides.AcceptedExactlyWhenModular | dev_project/manifest/scenario_overrides.py:300-353 | For every multi-scenario manifest, checking root, overlays and effective slices accepts if and only if the root holds no globally frozen key, database keys only as null and only with developer and server overlays declared, and no overlay holds a key frozen for its own scenario. |
| ScenarioOverrides.AcceptedWithoutNulls | dev_project/manifest/scenario_overrides.py:300-353 | Without null values: the root holds no frozen key at all and no overlay one of its own scenario's. |
| ScenarioOverrides.DatabaseOptionsOnlyFromCi | dev_project/manifest/scenario_overrides.py:201-227 | In an accepted multi-scenario manifest a database option takes effect only in scenario `ci`, and with the value its overlay gives. |
| ScenarioOverrides.NullDatabaseKeyPasses | dev_project/manifest/scenario_overrides.py:331-353 | A null database key at the root is accepted with developer and server overlays, and rejected with either of them alone. |
| ScenarioOverrides.EffectiveKeys | dev_project/manifest/scenario_overrides.py:201-227 | The options of an effective slice are those to which root or overlay give a value, or the root's as written where the scenario is not declared. |
| ScenarioOverrides.ResolveEffectiveConf | dev_project/manifest/scenario_overrides.py:201-227 | The effective `odoo_conf` of a scenario; unknown scenarios count as developer. |
| ScenarioOverrides.ValidateScenarioManifest | dev_project/manifest/scenario_overrides.py:300-353 | The loops over overlays and scenarios accept exactly what the combined condition accepts. |
| ScenarioOverrides.MergeStringList | dev_project/manifest/scenario_overrides.py:122-134 | The merged list, none when nothing is left. |
| ScenarioOverrides.MergedListMeaning | dev_project/manifest/scenario_overrides.py:122-134 | It holds exactly the stripped entries of both lists, each once, the base's as its front. |
| ScenarioOverrides.MergedListTwice | dev_project/manifest/scenario_overrides.py:122-134 | Merging the same overlay again changes nothing. |
| ManifestMigration.MigrateV1 | dev_project/manifest/migrator.py:18-84 | The v2 manifest, built key by key; a v2 manifest is refused. |
| ManifestMigration.MigratedFields | dev_project/manifest/migrator.py:29-62 | What is written for each setting, over the given values: texts, numbers, null and absent ones, with their defaults. |
| ManifestMigration.DevelopingLinkExactlyWhen | dev_project/manifest/migrator.py:72-76 | The manifest's own developing link goes before that of the user settings, and is written without white space around it. |
| ManifestMigration.MigrationKeepsExactlyWhen | dev_project/manifest/reader.py:68-108 | Migrating and reading back keeps every explicit setting if and only if versions, names and links are written as strings, links and dates are not empty, and lists hold stripped, non-blank entries. |
| ManifestMigration.MigratedLocksRebuild | dev_project/manifest/migrator.py:78-81 | The lock carried into the migrated manifest rebuilds to the lock it came from, up to branches and kinds. |
| ManifestMigration.AbsentSettingsDefault | dev_project/manifest/migrator.py:29-62 | Absent settings read as their defaults. |
| ManifestMigration.EmptyReads | dev_project/manifest/reader.py:68-108 | What an empty v2 manifest reads as. |
| ManifestMigration.VersionFromLink | dev_project/manifest/reader.py:61-82 | Without a version, the last word of a platform link of several words is read as one. |
| PlanAssembly.AssemblyOnlyInserts | dev_project/prepare/execute.py:179-195 | The evaluated steps keep their order, and the prepare part holds them, one named step for each fragment and each patch, and the hook, nothing more or less. |
| PlanAssembly.BlocksInPlace | dev_project/plan/fragments_preview.py:50-65 | The fragment steps stand whole directly before `compose.fragments` and the patch steps directly before `compose.service`, whichever of the two comes first. |
| PlanAssembly.ExpandedShape | dev_project/plan/patches_preview.py:34-49 | Where a target step is missing its block goes to the end; neither block splits the other. |
| PlanAssembly.PostPrepareLast | dev_project/plan/hooks_preview.py:62-72 | The first `post_prepare` hook closes the prepare part; without one nothing is added. |
| PlanAssembly.PreUpInPlace | dev_project/plan/hooks_preview.py:75-88 | The runtime steps stay as they are, with the first `pre_up` hook directly before the first `compose.up`, or last where there is none; without a hook nothing is added. |
| PlanAssembly.RegistryOrderKept | dev_project/prepare/execute.py:169-195 | The program's steps, then the extensions', are a subsequence of the whole plan. |
| PlanAssembly.ServiceStepsByName | dev_project/plan/fragments_preview.py:16-47 | A block holds exactly one prefixed step per service, sorted by name. |
| PlanAssembly.InsertSteps | dev_project/plan/fragments_preview.py:56-65 | Inserting step by step at moving offsets puts the block, in order, before the target. |
| PlanAssembly.BuildServiceSteps | dev_project/plan/patches_preview.py:12-31 | One step per service name, in sorted order. |
| PlanAssembly.BuildPreparePlan | dev_project/prepare/execute.py:179-195 | Fragments, patches and hook are inserted in this order. |
| PlanAssembly.BuildPlan | dev_project/prepare/execute.py:198-233 | Prepare part, then runtime part. |
| PlanAssembly.InsertPrepareHook | dev_project/plan/hooks_preview.py:62-72 | The first `post_prepare` step, if any, is appended. |
| PlanAssembly.InsertRuntimeHook | dev_project/plan/hooks_preview.py:75-88 | The first `pre_up` step, if any, goes before the first `compose.up`. |
| ExtensionRegistry.ExtensionStepsOrdered | dev_project/extensions/registry.py:239-253 | Extension steps are exactly the registered ones, by rising order and, within one order, by id; on a tie plugins come first, each in the order of registration. |
| ExtensionRegistry.LoadOrderIrrelevant | dev_project/extensions/registry.py:239-253 | With distinct ids the order in which plugins were loaded or registered does not matter. |
| ExtensionRegistry.PrepareStepRegistry.RegisterPrepareStep | dev_project/extensions/registry.py:62-72 | Refuses exactly an id that is already registered and then changes nothing; manual ids stay distinct. |
| ExtensionRegistry.PrepareStepRegistry.GetPrepareSteps | dev_project/extensions/registry.py:256-285 | Raises exactly when an extension reuses an id of the program's; otherwise the program's steps come first. |

## Left out

- DependencyResolver.ResolveDependencies: the callback is a function of the URL, which is no loss because each URL is discovered once; a callback that raises ends the original's loop and is not modelled; items that are not strings count as blank.
- DatabaseSchema.LastRunRoundTrip: a file whose values have the wrong JSON type is reported as such, where the original coerces with `str()`, `int()` and `bool()`.
- DriftResolution.DatabaseHost.ResolveDatabaseDrifts: answers are a finite stream whose end raises, as reading past end of file does; once created, a role is there; the time of a run is one value; a stuck call, on which the loop does not end, is excluded by precondition and covered by `StuckNeverEnds`.
- RuntimeCoordination.RuntimeCoordinator.RunAfterPrepare: polling for the database either succeeds or raises; what starting it leaves in the data directory is an answer of the outside world; debug profiles and IDE files are events without content.
- RepoUrl.SpellingsAgree: case folding is that of ASCII letters; hosts with brackets or user information and the host checks of `urlparse` are not modelled.
- DepsLocks.ManifestRoundTripExactlyWhen: asks that no two dependency keys become equal when canonicalised once more.
- DepsLocks.CompareLocks: a blank URL among the manifest's keys makes the original raise and is excluded by precondition.
- LockedCheckout.VerifiesExactlyWhenPinsHold: fetch, checkout and rev-parse succeed; a ref resolves to a full commit name and a full name to itself; the fingerprint of a local tree does not change during a run.
- DepsLockManager.Manager.Load: `gitLocks` stands for `locks.git` of a v2 manifest, empty where there is none; reading the lock file is a parameter.
- DepsLockManager.Manager.VerifyAfterCheckout: service sources and the warnings about divergence between manifest and lock file are not part of it; the divergence itself is `DepsLocks.CompareLocks`.
- LockCollection.CollectedReproduces: asks for stable URLs, full commit names and explicit pins that are checked out, and that file clones have not moved; without these the recorded commit is not what is there or is not restored, as `StrictRun.StrictRunExactlyWhen` says for all links. The same goes for CollectedRecords, Reproduces and ManifestReproduces of that module.
- DepsLockManager.Manager.CollectAndSave: service sources and the copy to the manifest that may follow are not part of it.
- DepsLockManager.Link.Checkout: the hard and clean modes, which stash and clean the tree, and failing git commands are not modelled.
- LockFile.LockRoundTripExactlyWhen: values of other JSON types are taken as their text, and an invalid service source is reported without saying which.
- Virtualenv.HistoryEndsFresh: a requirement line that parses installs exactly the distribution it names, one that does not at most one distribution; extras are neither base packages nor needed by the smoke test, without which `Virtualenv.SyncReachesFreshExactlyWhen` and `Virtualenv.RunRecoversExactlyWhen` say what happens; the stamp stands for the sorted lines it hashes. The baked mode only compares locks.
- ScenarioOverrides.AcceptedExactlyWhenModular: covers the `odoo_conf` checks; hooks, services and secrets of the same slices are not modelled.
- ManifestMigration.MigrateV1: the `database` block, the constant `requires_odpm` and JSON Schema validation of the result are not modelled.
- PlanAssembly.BuildPlan: outcomes, reasons and warnings of steps are carried along unread.
- SidecarGates.ScrubServiceDeps: list items that cannot be hashed, on which the original raises, are not modelled.
- Compose: port binding, image and volume defaults, merging of services and patches, and the checks of `validate.py` other than networks.
- Nested `odpm.json` and `oca_dependencies.txt` parsing, which only feed the resolver's callback.
- YAML, JSON text, SHA-256, environment substitution, secrets, version and marker evaluation, pluggy loading.
- Subprocesses: git, docker, pip and psql appear only through the state they leave.
- Command line, wizard, translations, logging, IDE files and release scripts.
