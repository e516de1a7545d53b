/** Update-lock followed by a strict run: when the collected lock passes (git/deps_lock_manager.py). */
module StrictRun {
  import opened Results
  import opened Sequences
  import opened Ordering
  import opened RepoUrl
  import opened DepsLocks
  import opened LockedCheckout
  import opened LockCollection
  import opened DepsLockManager

  // ---- No issues ------------------------------------------------------------------------------------------

  lemma {:induction false} NoStaleExactlyWhen(entries: seq<LockEntry>, urls: seq<string>)
    ensures StaleIssues(entries, urls) == [] <==> forall e | e in entries :: Key(e) in urls
  {
    hide Key;
    if entries != [] {
      var init, last := entries[..|entries| - 1], entries[|entries| - 1];
      assert entries == init + [last];
      NoStaleExactlyWhen(init, urls);
    }
  }

  lemma {:induction false} NoMissingSeedsExactlyWhen(lock: Lock, seeds: seq<string>)
    ensures SeedIssues(lock, seeds) == [] <==> forall seed | seed in seeds :: EntryFor(lock, seed).Some?
  {
    hide EntryFor;
    if seeds != [] {
      var init, last := seeds[..|seeds| - 1], seeds[|seeds| - 1];
      assert seeds == init + [last];
      NoMissingSeedsExactlyWhen(lock, init);
    }
  }

  /** Distinct locked repositories have links that can be looked up. */
  lemma EntryUsable(lock: Lock, l: LinkState)
    requires Identified(Entries(lock)) && EntryOf(l).Some? && EntryOf(l).value in Entries(lock)
    ensures Usable(l)
  {
    EntryOfUrl(l);
    var k :| 0 <= k < |Entries(lock)| && Entries(lock)[k] == EntryOf(l).value;
    NothingInBlank();
  }

  lemma NothingInBlank()
    ensures Canonical("") == None
  {
  }

  lemma LinkLocked(ws: Workspace, i: nat) returns (e: LockEntry)
    requires Collected(ws).Some? && i < |ws.dependencies| && Identified(Entries(Collected(ws).value))
    ensures EntryOf(ws.dependencies[i]) == Some(e) && e in Collected(ws).value.dependencies && e in Entries(Collected(ws).value)
    ensures Usable(ws.dependencies[i]) && Canonical(ProjectUrl(ws.dependencies[i])) == Some(Key(e))
  {
    hide Identified, Collected, Canonical, EntryOf;
    CollectedParts(ws);
    e := EntriesOf(ws.dependencies).value[i];
    assert EntryOf(ws.dependencies[i]) == Some(e);
    CollectedDependency(ws, e);
    EntriesMembers(Collected(ws).value, e);
    EntryUsable(Collected(ws).value, ws.dependencies[i]);
    EntryOfUrl(ws.dependencies[i]);
  }

  // ---- Stable links ------------------------------------------------------------------------------------------------

  ghost predicate DependenciesStable(ws: Workspace) {
    forall i | 0 <= i < |ws.dependencies| :: StableLink(ws.dependencies[i])
  }

  /** If no collected entry is stale, every dependency's URL is stable: an unstable one needs another dependency that
      goes by its key, whose URL is shorter, and so on. */
  lemma {:induction false} NotStaleMeansStable(ws: Workspace, i: nat)
    requires Collected(ws).Some? && Identified(Entries(Collected(ws).value)) && i < |ws.dependencies|
    requires forall e | e in Collected(ws).value.dependencies :: Key(e) in Urls(ws.dependencies)
    ensures StableLink(ws.dependencies[i])
    decreases |ProjectUrl(ws.dependencies[i])|
  {
    hide Identified, Collected, Canonical, StableUrl;
    var l := ws.dependencies[i];
    var e := LinkLocked(ws, i);
    if !StableLink(l) {
      CanonicalTwice(l.repo.url);
      var j :| 0 <= j < |ws.dependencies| && Urls(ws.dependencies)[j] == Key(e);
      NotStaleMeansStable(ws, j);
      var x := LinkLocked(ws, j);
      StableLinkFixed(ws.dependencies[j]);
      EntryOfUrl(l);
      EntryOfUrl(ws.dependencies[j]);
      SameKeySameEntry(Entries(Collected(ws).value), e, x);
    }
  }

  lemma StableUrlsDistinct(ws: Workspace)
    requires Collected(ws).Some? && Identified(Entries(Collected(ws).value)) && DependenciesStable(ws)
    ensures forall e | e in Collected(ws).value.dependencies :: Key(e) in Urls(ws.dependencies)
  {
    hide Identified, Collected, Canonical, StableUrl;
    forall e | e in Collected(ws).value.dependencies ensures Key(e) in Urls(ws.dependencies) {
      CollectedDependency(ws, e);
      var i :| 0 <= i < |ws.dependencies| && EntryOf(ws.dependencies[i]) == Some(e);
      var x := LinkLocked(ws, i);
      StableLinkFixed(ws.dependencies[i]);
      assert Urls(ws.dependencies)[i] == Key(e);
    }
  }

  /** No dependency entry is stale exactly when every dependency's URL is stable. */
  lemma NoStaleCollected(ws: Workspace)
    requires Collected(ws).Some? && Identified(Entries(Collected(ws).value))
    ensures StaleIssues(Collected(ws).value.dependencies, Urls(ws.dependencies)) == [] <==> DependenciesStable(ws)
  {
    hide Identified, Collected, StableLink, Key;
    NoStaleExactlyWhen(Collected(ws).value.dependencies, Urls(ws.dependencies));
    if forall e | e in Collected(ws).value.dependencies :: Key(e) in Urls(ws.dependencies) {
      forall i | 0 <= i < |ws.dependencies| ensures StableLink(ws.dependencies[i]) {
        NotStaleMeansStable(ws, i);
      }
    }
    if DependenciesStable(ws) {
      StableUrlsDistinct(ws);
    }
  }

  lemma NoDevelopingIssue(ws: Workspace, developing: LinkState)
    requires Collected(ws).Some? && Identified(Entries(Collected(ws).value)) && developing.repo == ws.developing.repo
    ensures DevelopingIssues(Collected(ws).value, false, developing) == [] <==>
      (IsRemote(ws.developing.repo) ==> StableLink(ws.developing))
  {
    hide Identified, Collected, Canonical, EntryOf;
    var lock := Collected(ws).value;
    CollectedParts(ws);
    if IsRemote(ws.developing.repo) {
      EntriesMembers(lock, lock.developing.value);
      EntryUsable(lock, ws.developing);
      EntryOfUrl(ws.developing);
      FixedExactlyWhenStable(ws.developing);
      UsableKey(lock.developing.value, ws.developing);
      assert ProjectUrl(developing) == ProjectUrl(ws.developing);
    }
  }

  lemma UsableKey(e: LockEntry, l: LinkState)
    requires Usable(l) && e.url == ProjectUrl(l)
    ensures Canonical(ProjectUrl(l)) == Some(Key(e))
  {
    hide Canonical;
  }

  // ---- Seeds ----------------------------------------------------------------------------------------------------------

  ghost predicate SeedCovered(ws: Workspace, seed: string) {
    exists i :: 0 <= i < |Locked(ws)| && Canonical(ProjectUrl(Locked(ws)[i])) == Canonical(seed)
  }

  lemma EntryForExactlyWhen(lock: Lock, url: string)
    ensures EntryFor(lock, url).Some? <==> exists e :: e in Entries(lock) && Canonical(e.url) == Canonical(url)
  {
    hide Canonical;
    var urls, key := CanonicalUrls(Entries(lock)), Canonical(url);
    FirstPositionFinds(urls, key);
    if EntryFor(lock, url).Some? {
      FirstEntryIsEntry(Entries(lock), key);
    }
    if e :| e in Entries(lock) && Canonical(e.url) == key {
      var k :| 0 <= k < |Entries(lock)| && Entries(lock)[k] == e;
      assert urls[k] == key;
    }
  }

  lemma NoSeedMissing(ws: Workspace, seeds: seq<string>)
    requires Collected(ws).Some?
    ensures SeedIssues(Collected(ws).value, seeds) == [] <==> forall seed | seed in seeds :: SeedCovered(ws, seed)
  {
    hide EntryFor, SeedCovered, Collected;
    NoMissingSeedsExactlyWhen(Collected(ws).value, seeds);
    forall seed ensures EntryFor(Collected(ws).value, seed).Some? <==> SeedCovered(ws, seed) {
      SeedFound(ws, seed);
    }
  }

  lemma SeedFound(ws: Workspace, seed: string)
    requires Collected(ws).Some?
    ensures EntryFor(Collected(ws).value, seed).Some? <==> SeedCovered(ws, seed)
  {
    hide Canonical, Collected, EntryFor, EntryOf;
    var lock := Collected(ws).value;
    EntryForExactlyWhen(lock, seed);
    if e :| e in Entries(lock) && Canonical(e.url) == Canonical(seed) {
      var i := EntryLink(ws, e);
      EntryOfUrl(Locked(ws)[i]);
    }
    if i :| 0 <= i < |Locked(ws)| && Canonical(ProjectUrl(Locked(ws)[i])) == Canonical(seed) {
      CoveredHasEntry(ws, i);
      EntryOfUrl(Locked(ws)[i]);
      CollectedEntry(ws, EntryOf(Locked(ws)[i]).value);
    }
  }

  // ---- Pins ---------------------------------------------------------------------------------------------------------------

  /** What is recorded of `l` can be restored in its later state `l'`: a clone needs a full commit name; a clone that
      is linked by a file URL is not moved and has to be there already, and so has a plain tree. */
  predicate Restorable(l: LinkState, l': LinkState) {
    && CommitToLock(l).Some?
    && var commit := CommitToLock(l).value;
       if l'.repo.isRepo then if l'.repo.linkType == LocalFilesystem then l'.head == commit else FullCommit(commit)
       else l'.repo.linkType == LocalFilesystem && l'.repo.snapshot == commit
  }

  lemma RestorablePin(l: LinkState, l': LinkState)
    requires EntryOf(l).Some? && l'.repo == l.repo
    ensures PinHolds((l', EntryOf(l).value)) <==> Restorable(l, l')
  {
    hide ProjectUrl;
  }

  ghost predicate DependenciesRestorable(ws: Workspace, ws': Workspace) {
    && |ws'.dependencies| == |ws.dependencies|
    && forall i | 0 <= i < |ws.dependencies| :: Restorable(ws.dependencies[i], ws'.dependencies[i])
  }

  /** The links and seeds with which update-lock followed by a strict run passes. */
  ghost predicate Reproducible(ws: Workspace, ws': Workspace, seeds: seq<string>) {
    && (forall seed | seed in seeds :: SeedCovered(ws, seed))
    && Restorable(ws.platform, ws'.platform)
    && (IsRemote(ws.developing.repo) ==> StableLink(ws.developing) && Restorable(ws.developing, ws'.developing))
    && DependenciesStable(ws) && DependenciesRestorable(ws, ws')
  }

  lemma DependencyUrlsDiffer(ws: Workspace)
    requires Collected(ws).Some? && Identified(Entries(Collected(ws).value)) && DependenciesStable(ws)
    ensures NoDuplicates(Urls(ws.dependencies))
  {
    hide Identified, Collected, Canonical, StableUrl, EntryOf;
    forall i, j | 0 <= i < j < |ws.dependencies| ensures Urls(ws.dependencies)[i] != Urls(ws.dependencies)[j] {
      LinksDiffer(ws, i, j);
    }
  }

  lemma LinksDiffer(ws: Workspace, i: nat, j: nat)
    requires Collected(ws).Some? && Identified(Entries(Collected(ws).value)) && i < j < |ws.dependencies|
    ensures ProjectUrl(ws.dependencies[i]) != ProjectUrl(ws.dependencies[j])
  {
    hide Collected, Canonical, EntryOf;
    CollectedParts(ws);
    var lock, entries := Collected(ws).value, EntriesOf(ws.dependencies).value;
    DependencyKeysDistinct(lock);
    DistinctKeysDistinctEntries(lock.dependencies);
    SortMultiset(EntryLeq, entries);
    NoDuplicatesByMultiset(lock.dependencies, entries);
    assert entries[i] != entries[j];
    if ProjectUrl(ws.dependencies[i]) == ProjectUrl(ws.dependencies[j]) {
      var x := LinkLocked(ws, i);
      var y := LinkLocked(ws, j);
      SameKeySameEntry(Entries(lock), x, y);
    }
  }

  /** With stable dependencies, each is compared with its own entry. */
  lemma ComparedPins(ws: Workspace, ws': Workspace)
    requires Collected(ws).Some? && Identified(Entries(Collected(ws).value)) && SameRepositories(ws, ws')
    requires DependenciesStable(ws)
    ensures AllHold(DependencyChecks(Collected(ws).value.dependencies, ws'.dependencies)) <==> DependenciesRestorable(ws, ws')
  {
    hide Identified, Collected, Canonical, StableUrl, EntryOf, PinHolds, Restorable, DependencyChecks;
    var entries := Collected(ws).value.dependencies;
    var checks := DependencyChecks(entries, ws'.dependencies);
    if AllHold(checks) {
      forall i | 0 <= i < |ws.dependencies| ensures Restorable(ws.dependencies[i], ws'.dependencies[i]) {
        var e := OwnCheck(ws, ws', i);
        RestorablePin(ws.dependencies[i], ws'.dependencies[i]);
      }
    }
    if DependenciesRestorable(ws, ws') {
      forall c | c in checks ensures PinHolds(c) {
        var i := CheckedLink(ws, ws', c);
        RestorablePin(ws.dependencies[i], ws'.dependencies[i]);
      }
    }
  }

  lemma OwnCheck(ws: Workspace, ws': Workspace, i: nat) returns (e: LockEntry)
    requires Collected(ws).Some? && Identified(Entries(Collected(ws).value)) && SameRepositories(ws, ws')
    requires DependenciesStable(ws) && i < |ws.dependencies|
    ensures EntryOf(ws.dependencies[i]) == Some(e)
    ensures (ws'.dependencies[i], e) in DependencyChecks(Collected(ws).value.dependencies, ws'.dependencies)
  {
    hide Identified, Collected, Canonical, StableUrl, EntryOf, DependencyChecks;
    e := LinkLocked(ws, i);
    var entries := Collected(ws).value.dependencies;
    var d :| 0 <= d < |entries| && entries[d] == e;
    DependencyUrlsDiffer(ws);
    SameUrls(ws, ws');
    StableLinkFixed(ws.dependencies[i]);
    assert ProjectUrl(ws'.dependencies[i]) == ProjectUrl(ws.dependencies[i]);
    DependencyCompared(entries, ws'.dependencies, d, i);
  }

  lemma CheckedLink(ws: Workspace, ws': Workspace, c: Check) returns (i: nat)
    requires Collected(ws).Some? && Identified(Entries(Collected(ws).value)) && SameRepositories(ws, ws')
    requires DependenciesStable(ws) && c in DependencyChecks(Collected(ws).value.dependencies, ws'.dependencies)
    ensures i < |ws.dependencies| && c.0 == ws'.dependencies[i] && EntryOf(ws.dependencies[i]) == Some(c.1)
  {
    hide Identified, Collected, Canonical, StableUrl, EntryOf, DependencyChecks;
    ComparedByUrl(Collected(ws).value.dependencies, ws'.dependencies, c);
    CollectedDependency(ws, c.1);
    i :| 0 <= i < |ws.dependencies| && EntryOf(ws.dependencies[i]) == Some(c.1);
    var e := LinkLocked(ws, i);
    StableLinkFixed(ws.dependencies[i]);
    var j :| 0 <= j < |ws'.dependencies| && ws'.dependencies[j] == c.0;
    DependencyUrlsDiffer(ws);
    SameUrls(ws, ws');
    assert Urls(ws.dependencies)[i] == Key(c.1);
    assert Urls(ws'.dependencies)[j] == Key(c.1);
  }

  lemma OwnPins(ws: Workspace, ws': Workspace)
    requires Collected(ws).Some? && SameRepositories(ws, ws')
    ensures AllHold(OwnChecks(Collected(ws).value, false, ws')) <==>
      Restorable(ws.platform, ws'.platform) && (IsRemote(ws.developing.repo) ==> Restorable(ws.developing, ws'.developing))
  {
    hide Collected, EntryOf, PinHolds, Restorable;
    var lock := Collected(ws).value;
    var checks := OwnChecks(lock, false, ws');
    CollectedParts(ws);
    RestorablePin(ws.platform, ws'.platform);
    assert checks[0] == (ws'.platform, lock.platform.value);
    if IsRemote(ws.developing.repo) {
      RestorablePin(ws.developing, ws'.developing);
      assert checks[1] == (ws'.developing, lock.developing.value);
    }
  }

  ghost predicate CoveredFaithful(ws: Workspace) {
    forall i | 0 <= i < |Locked(ws)| :: Faithful(Locked(ws)[i].repo)
  }

  lemma CollectedSyncReady(ws: Workspace, ws': Workspace)
    requires Collected(ws).Some? && Identified(Entries(Collected(ws).value)) && SameRepositories(ws, ws') && CoveredFaithful(ws)
    ensures SyncReady(Collected(ws).value, false, ws')
  {
    hide Identified, Collected, Canonical, Faithful;
    CollectedParts(ws);
    LockedParts(ws);
    forall i | 0 <= i < |ws'.dependencies| ensures Usable(ws'.dependencies[i]) && Faithful(ws'.dependencies[i].repo) {
      var e := LinkLocked(ws, i);
      assert ws'.dependencies[i].repo == ws.dependencies[i].repo;
      assert Locked(ws)[|Own(ws)| + i] == ws.dependencies[i];
    }
  }

  /** Update-lock followed by a strict run on the same repositories, with distinct locked repositories: the run passes
      if and only if every seed is covered, the URLs of developing and dependencies are stable, and what was recorded
      of each link can be restored. */
  lemma StrictRunExactlyWhen(ws: Workspace, ws': Workspace, seeds: seq<string>, version: string, update: bool)
    requires Collected(ws).Some? && Identified(Entries(Collected(ws).value)) && SameRepositories(ws, ws') && CoveredFaithful(ws)
    ensures RunIssues(Collected(ws).value, false, ws', seeds, version, update) == [] <==> Reproducible(ws, ws', seeds)
  {
    hide Identified, Collected, Canonical, StableUrl, Restorable, PinHolds, SeedCovered, SyncReady, Issues, Checks, Synced, SeedIssues, StaleIssues, DevelopingIssues, OwnChecks, DependencyChecks, AllSurvive, AllHold, DependenciesRestorable;
    var lock := Collected(ws).value;
    SameUrls(ws, ws');
    NoSeedMissing(ws, seeds);
    NoStaleCollected(ws);
    NoDevelopingIssue(ws, ws'.developing);
    CollectedSyncReady(ws, ws');
    RunVerdict(lock, false, ws', seeds, version, update);
    OwnPins(ws, ws');
    if DependenciesStable(ws) {
      ComparedPins(ws, ws');
      StableSurvive(lock, ws, ws', version, update);
    }
  }

  lemma StableSurvive(lock: Lock, ws: Workspace, ws': Workspace, version: string, update: bool)
    requires DependenciesStable(ws) && SameRepositories(ws, ws')
    ensures var checks := DependencyChecks(lock.dependencies, ws'.dependencies);
      AllSurvive(lock, false, ws', version, update, checks) <==> AllHold(checks)
  {
    hide StableUrl, PinHolds, DependencyChecks, AfterSync;
    var checks := DependencyChecks(lock.dependencies, ws'.dependencies);
    forall i | 0 <= i < |checks| ensures StableLink(checks[i].0) {
      ComparedByUrl(lock.dependencies, ws'.dependencies, checks[i]);
      var j :| 0 <= j < |ws'.dependencies| && ws'.dependencies[j] == checks[i].0;
      assert StableLink(ws.dependencies[j]) && ws.dependencies[j].repo == ws'.dependencies[j].repo;
    }
  }

  // ---- What a passing run restores -------------------------------------------------------------------------------------------

  /** A strict run that passes leaves every covered link at what update-lock recorded of it. */
  lemma StrictRunRestores(ws: Workspace, ws': Workspace, seeds: seq<string>, version: string, update: bool)
    requires Collected(ws).Some? && Identified(Entries(Collected(ws).value)) && SameRepositories(ws, ws') && CoveredFaithful(ws)
    requires RunIssues(Collected(ws).value, false, ws', seeds, version, update) == []
    ensures var after := Synced(Collected(ws).value, false, ws', version, update);
      && Some(Present(after.platform)) == CommitToLock(ws.platform)
      && (IsRemote(ws.developing.repo) ==> Some(Present(after.developing)) == CommitToLock(ws.developing))
      && (forall i | 0 <= i < |ws.dependencies| :: Some(Present(after.dependencies[i])) == CommitToLock(ws.dependencies[i]))
  {
    hide Identified, Collected, Canonical, StableUrl, CommitToLock, Present, RunIssues, Faithful, EntryOf, AppliedPins, AppliedDependency, CheckedOutUnpinned, Restorable;
    var lock := Collected(ws).value;
    var after := Synced(lock, false, ws', version, update);
    StrictRunExactlyWhen(ws, ws', seeds, version, update);
    CollectedParts(ws);
    LockedParts(ws);
    PinRestores(ws.platform, ws'.platform);
    if IsRemote(ws.developing.repo) {
      PinRestores(ws.developing, ws'.developing);
    }
    forall i | 0 <= i < |ws.dependencies| ensures Some(Present(after.dependencies[i])) == CommitToLock(ws.dependencies[i]) {
      DependencyRestored(ws, ws', version, update, i);
    }
  }

  lemma PinRestores(l: LinkState, l': LinkState)
    requires EntryOf(l).Some? && l'.repo == l.repo && Faithful(l.repo) && Restorable(l, l')
    ensures Some(Present(MovedTo(Pinned(l', EntryOf(l).value), EntryOf(l).value.commit))) == CommitToLock(l)
  {
    hide ProjectUrl;
  }

  lemma DependencyRestored(ws: Workspace, ws': Workspace, version: string, update: bool, i: nat)
    requires Collected(ws).Some? && Identified(Entries(Collected(ws).value)) && SameRepositories(ws, ws') && CoveredFaithful(ws)
    requires i < |ws.dependencies| && StableLink(ws.dependencies[i]) && Restorable(ws.dependencies[i], ws'.dependencies[i])
    ensures Some(Present(Synced(Collected(ws).value, false, ws', version, update).dependencies[i])) == CommitToLock(ws.dependencies[i])
  {
    hide Identified, Collected, Canonical, StableUrl, CommitToLock, Present, Faithful, EntryOf, AppliedPins, CheckedOutUnpinned, Restorable;
    var l, l' := ws.dependencies[i], ws'.dependencies[i];
    var e := LinkLocked(ws, i);
    EntryOfUrl(l);
    var d :| 0 <= d < |Collected(ws).value.dependencies| && Collected(ws).value.dependencies[d] == e;
    DependencyEntryFor(Collected(ws).value, d, Canonical(ProjectUrl(l)));
    assert AppliedDependency(Collected(ws).value, l') == Pinned(l', e);
    LockedParts(ws);
    assert Locked(ws)[|Own(ws)| + i] == l;
    PinRestores(l, l');
  }
}
