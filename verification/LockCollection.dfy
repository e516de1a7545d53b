/** Collecting a lock from the checked-out repositories, and reproducing the checkout from it later
    (git/deps_lock_manager.py, git/deps_lock.py). */
module LockCollection {
  import opened Results
  import opened Sequences
  import opened Ordering
  import opened RepoUrl
  import opened DepsLocks
  import opened LockedCheckout

  // ---- Collecting -----------------------------------------------------------------------------------------

  /** `_entry_from_project`; no result where the commit cannot be resolved. */
  function EntryOf(l: LinkState): Option<LockEntry> {
    match CommitToLock(l)
    case Some(commit) =>
      Some(LockEntry(ProjectUrl(l), commit, if l.branchExplicit then Some(l.branch) else None,
                     if l.repo.linkType == LocalFilesystem then File else Git))
    case None => None
  }

  function EntriesOf(links: seq<LinkState>): Option<seq<LockEntry>> {
    if forall i | 0 <= i < |links| :: EntryOf(links[i]).Some?
    then Some(seq(|links|, i requires 0 <= i < |links| => EntryOf(links[i]).value))
    else None
  }

  lemma EntriesAre(links: seq<LinkState>, entries: seq<LockEntry>)
    requires |links| == |entries| && forall i | 0 <= i < |links| :: EntryOf(links[i]) == Some(entries[i])
    ensures EntriesOf(links) == Some(entries)
  {
    hide EntryOf;
    assert forall i | 0 <= i < |links| :: EntryOf(links[i]).Some?;
    assert EntriesOf(links).value == entries;
  }

  /** The lock `collect_and_save` writes; no result where it raises. */
  function Collected(ws: Workspace): Option<Lock> {
    var platform, dependencies := EntryOf(ws.platform), EntriesOf(ws.dependencies);
    if platform.None? || dependencies.None? then None
    else if !IsRemote(ws.developing.repo) then Some(Lock(platform, None, SortEntries(dependencies.value)))
    else if EntryOf(ws.developing).None? then None
    else Some(Lock(platform, EntryOf(ws.developing), SortEntries(dependencies.value)))
  }

  // ---- The collected lock, link by link ---------------------------------------------------------------------

  function Own(ws: Workspace): seq<LinkState> {
    [ws.platform] + (if IsRemote(ws.developing.repo) then [ws.developing] else [])
  }

  /** The links whose repositories a lock covers. */
  function Locked(ws: Workspace): seq<LinkState> {
    Own(ws) + ws.dependencies
  }

  lemma CollectedParts(ws: Workspace)
    requires Collected(ws).Some?
    ensures var lock := Collected(ws).value;
      && EntryOf(ws.platform).Some? && lock.platform == EntryOf(ws.platform)
      && (lock.developing.Some? <==> IsRemote(ws.developing.repo))
      && (lock.developing.Some? ==> lock.developing == EntryOf(ws.developing))
      && EntriesOf(ws.dependencies).Some? && lock.dependencies == SortEntries(EntriesOf(ws.dependencies).value)
  {
    hide EntryOf, EntriesOf;
  }

  /** The dependency entries are exactly those of the dependency links. */
  lemma CollectedDependency(ws: Workspace, e: LockEntry)
    requires Collected(ws).Some?
    ensures e in Collected(ws).value.dependencies <==> exists i :: 0 <= i < |ws.dependencies| && EntryOf(ws.dependencies[i]) == Some(e)
  {
    hide EntryOf;
    CollectedParts(ws);
    var entries := EntriesOf(ws.dependencies).value;
    SortMembers(EntryLeq, entries, e);
    if e in entries {
      var i :| 0 <= i < |entries| && entries[i] == e;
      assert EntryOf(ws.dependencies[i]) == Some(e);
    }
    if i :| 0 <= i < |ws.dependencies| && EntryOf(ws.dependencies[i]) == Some(e) {
      assert entries[i] == e;
    }
  }

  lemma EntryOfUrl(l: LinkState)
    requires EntryOf(l).Some?
    ensures EntryOf(l).value.url == ProjectUrl(l) && CommitToLock(l) == Some(EntryOf(l).value.commit)
  {
  }

  /** The entries are exactly those of the links the lock covers. */
  lemma CollectedEntry(ws: Workspace, e: LockEntry)
    requires Collected(ws).Some?
    ensures e in Entries(Collected(ws).value) <==> exists i :: 0 <= i < |Locked(ws)| && EntryOf(Locked(ws)[i]) == Some(e)
  {
    hide EntryOf, Collected;
    CollectedParts(ws);
    CollectedDependency(ws, e);
    EntriesMembers(Collected(ws).value, e);
    LockedParts(ws);
    if e in Entries(Collected(ws).value) {
      var i := EntryLink(ws, e);
    }
    if i :| 0 <= i < |Locked(ws)| && EntryOf(Locked(ws)[i]) == Some(e) && i >= |Own(ws)| {
      assert EntryOf(ws.dependencies[i - |Own(ws)|]) == Some(e);
    }
  }

  lemma LockedParts(ws: Workspace)
    ensures Locked(ws)[0] == ws.platform && (IsRemote(ws.developing.repo) ==> Locked(ws)[1] == ws.developing)
    ensures forall i | 0 <= i < |ws.dependencies| :: Locked(ws)[|Own(ws)| + i] == ws.dependencies[i]
    ensures |Own(ws)| == if IsRemote(ws.developing.repo) then 2 else 1
  {
  }

  lemma EntryLink(ws: Workspace, e: LockEntry) returns (i: nat)
    requires Collected(ws).Some? && e in Entries(Collected(ws).value)
    ensures i < |Locked(ws)| && EntryOf(Locked(ws)[i]) == Some(e)
  {
    hide EntryOf, Collected;
    CollectedParts(ws);
    CollectedDependency(ws, e);
    EntriesMembers(Collected(ws).value, e);
    LockedParts(ws);
    if EntryOf(ws.platform) == Some(e) {
      i := 0;
    } else if IsRemote(ws.developing.repo) && EntryOf(ws.developing) == Some(e) {
      i := 1;
    } else {
      var k :| 0 <= k < |ws.dependencies| && EntryOf(ws.dependencies[k]) == Some(e);
      i := |Own(ws)| + k;
    }
  }

  lemma CoveredHasEntry(ws: Workspace, i: nat)
    requires Collected(ws).Some? && i < |Locked(ws)|
    ensures EntryOf(Locked(ws)[i]).Some?
  {
    hide EntryOf;
    LockedParts(ws);
    if i >= |Own(ws)| {
      assert Locked(ws)[i] == ws.dependencies[i - |Own(ws)|];
    }
  }

  // ---- What a lock records ------------------------------------------------------------------------------------

  /** What is there: the commit of a clone, the fingerprint of a tree. */
  function Present(l: LinkState): string {
    if l.repo.isRepo then l.head else l.repo.snapshot
  }

  ghost predicate Describes(e: LockEntry, l: LinkState) {
    Canonical(e.url) == Some(ProjectUrl(l)) && e.commit == Present(l) != ""
  }

  ghost predicate DescribesOne(e: LockEntry, links: seq<LinkState>) {
    exists i :: 0 <= i < |links| && Describes(e, links[i])
  }

  ghost predicate DescribedByOne(l: LinkState, entries: seq<LockEntry>) {
    exists k :: 0 <= k < |entries| && Describes(entries[k], l)
  }

  ghost predicate DescribeExactly(entries: seq<LockEntry>, links: seq<LinkState>) {
    && (forall k {:trigger DescribesOne(entries[k], links)} | 0 <= k < |entries| :: DescribesOne(entries[k], links))
    && (forall i {:trigger DescribedByOne(links[i], entries)} | 0 <= i < |links| :: DescribedByOne(links[i], entries))
  }

  /** `lock` describes the repositories of `ws` and nothing else. */
  ghost predicate Records(lock: Lock, ws: Workspace) {
    && lock.platform.Some? && Describes(lock.platform.value, ws.platform)
    && (lock.developing.Some? <==> IsRemote(ws.developing.repo))
    && (lock.developing.Some? ==> Describes(lock.developing.value, ws.developing))
    && DescribeExactly(lock.dependencies, ws.dependencies)
  }

  /** A clone or a plain local tree, which an explicit pin, if any, names as it is. */
  ghost predicate Recordable(l: LinkState) {
    && StableLink(l) && Faithful(l.repo)
    && (l.repo.isRepo || l.repo.linkType == LocalFilesystem)
    && (if l.repo.isRepo then FullCommit(l.head) else l.repo.snapshot != "")
    && (l.commitExplicit && AcceptedCommit(l.commit) ==> l.commit == Present(l))
  }

  ghost predicate RecordableAll(ws: Workspace) {
    && (forall i | 0 <= i < |Locked(ws)| :: Recordable(Locked(ws)[i]))
    && NoDuplicates(Urls(Locked(ws)))
  }

  lemma EntryDescribes(l: LinkState)
    requires Recordable(l)
    ensures EntryOf(l).Some? && Describes(EntryOf(l).value, l)
  {
    StableLinkFixed(l);
  }

  lemma RecordableParts(ws: Workspace)
    requires RecordableAll(ws)
    ensures Recordable(ws.platform)
    ensures IsRemote(ws.developing.repo) ==> Recordable(ws.developing)
    ensures forall i | 0 <= i < |ws.dependencies| :: Recordable(ws.dependencies[i])
  {
    hide Canonical;
    assert Locked(ws)[0] == ws.platform;
    if IsRemote(ws.developing.repo) {
      assert Locked(ws)[1] == ws.developing;
    }
    forall i | 0 <= i < |ws.dependencies| ensures Recordable(ws.dependencies[i]) {
      assert Locked(ws)[|Own(ws)| + i] == ws.dependencies[i];
    }
  }

  lemma UrlsConcat(a: seq<LinkState>, b: seq<LinkState>)
    ensures Urls(a + b) == Urls(a) + Urls(b)
  {
    forall i | 0 <= i < |a + b| ensures Urls(a + b)[i] == (Urls(a) + Urls(b))[i] {
      assert (a + b)[i] == if i < |a| then a[i] else b[i - |a|];
    }
  }

  lemma DependencyUrlsDistinct(ws: Workspace)
    requires RecordableAll(ws)
    ensures NoDuplicates(Urls(ws.dependencies))
  {
    UrlsConcat(Own(ws), ws.dependencies);
    NoDuplicatesSuffix(Urls(Own(ws)), Urls(ws.dependencies));
  }

  lemma MemberOfSorted(entries: seq<LockEntry>, x: LockEntry) returns (k: nat)
    requires x in entries
    ensures k < |SortEntries(entries)| && SortEntries(entries)[k] == x
  {
    SortMembers(EntryLeq, entries, x);
    k :| 0 <= k < |SortEntries(entries)| && SortEntries(entries)[k] == x;
  }

  /** The collected lock records the workspace. */
  lemma CollectedRecords(ws: Workspace)
    requires RecordableAll(ws)
    ensures Collected(ws).Some? && Records(Collected(ws).value, ws)
  {
    RecordableParts(ws);
    EntryDescribes(ws.platform);
    if IsRemote(ws.developing.repo) {
      EntryDescribes(ws.developing);
    }
    forall i | 0 <= i < |ws.dependencies| ensures EntryOf(ws.dependencies[i]).Some? {
      EntryDescribes(ws.dependencies[i]);
    }
    SortedDescribes(ws.dependencies);
  }

  lemma SortedDescribes(links: seq<LinkState>)
    requires forall i | 0 <= i < |links| :: Recordable(links[i])
    requires EntriesOf(links).Some?
    ensures DescribeExactly(SortEntries(EntriesOf(links).value), links)
  {
    var entries := EntriesOf(links).value;
    var sorted := SortEntries(entries);
    forall k | 0 <= k < |sorted| ensures DescribesOne(sorted[k], links) {
      SortMembers(EntryLeq, entries, sorted[k]);
      var i :| 0 <= i < |entries| && entries[i] == sorted[k];
      EntryDescribes(links[i]);
      assert Describes(sorted[k], links[i]);
    }
    forall i | 0 <= i < |links| ensures DescribedByOne(links[i], sorted) {
      EntryDescribes(links[i]);
      var k := MemberOfSorted(entries, entries[i]);
      assert Describes(sorted[k], links[i]);
    }
  }

  // ---- Reproducing ------------------------------------------------------------------------------------------------

  /** The same repositories, whatever is pinned or checked out. */
  ghost predicate SameRepositories(a: Workspace, b: Workspace) {
    && a.platform.repo == b.platform.repo && a.developing.repo == b.developing.repo
    && |a.dependencies| == |b.dependencies|
    && (forall i | 0 <= i < |a.dependencies| :: a.dependencies[i].repo == b.dependencies[i].repo)
  }

  /** A clone that is linked by a file URL, which no checkout moves, is where it was. */
  predicate Unmoved(l: LinkState, l': LinkState) {
    l'.repo.isRepo && l'.repo.linkType == LocalFilesystem ==> l'.head == l.head
  }

  ghost predicate Later(a: Workspace, b: Workspace) {
    && SameRepositories(a, b)
    && Unmoved(a.platform, b.platform) && Unmoved(a.developing, b.developing)
    && (forall i | 0 <= i < |a.dependencies| :: Unmoved(a.dependencies[i], b.dependencies[i]))
  }

  /** Every locked repository is where it was. */
  ghost predicate BroughtBack(ws: Workspace, after: Workspace) {
    && Present(after.platform) == Present(ws.platform)
    && (IsRemote(ws.developing.repo) ==> Present(after.developing) == Present(ws.developing))
    && |after.dependencies| == |ws.dependencies|
    && (forall i | 0 <= i < |ws.dependencies| :: Present(after.dependencies[i]) == Present(ws.dependencies[i]))
  }

  /** Pinning a link of the same repository to its entry and checking out brings back what was there. */
  lemma PinBringsBack(e: LockEntry, l: LinkState, l': LinkState)
    requires Recordable(l) && Describes(e, l) && l'.repo == l.repo && Unmoved(l, l')
    ensures Present(MovedTo(Pinned(l', e), e.commit)) == Present(l)
    ensures PinHolds((l', e))
  {
  }

  lemma EntryOfRecorded(lock: Lock, l: LinkState) returns (e: LockEntry)
    requires Identified(Entries(lock)) && StableLink(l) && DescribedByOne(l, lock.dependencies)
    ensures EntryFor(lock, ProjectUrl(l)) == Some(e) && Describes(e, l)
  {
    var k :| 0 <= k < |lock.dependencies| && Describes(lock.dependencies[k], l);
    e := lock.dependencies[k];
    StableLinkFixed(l);
    DependencyEntryFor(lock, k, Canonical(ProjectUrl(l)));
  }

  lemma DependencyBroughtBack(lock: Lock, ws: Workspace, ws': Workspace, i: nat, version: string, update: bool)
    requires RecordableAll(ws) && Records(lock, ws) && Identified(Entries(lock)) && Later(ws, ws')
    requires i < |ws.dependencies|
    ensures Present(Synced(lock, false, ws', version, update).dependencies[i]) == Present(ws.dependencies[i])
  {
    hide Canonical;
    RecordableParts(ws);
    var l, l' := ws.dependencies[i], ws'.dependencies[i];
    assert DescribedByOne(l, lock.dependencies);
    var e := EntryOfRecorded(lock, l);
    assert AppliedDependency(lock, l') == Pinned(l', e);
    PinBringsBack(e, l, l');
  }

  lemma {:induction false} DependencyPinsHold(lock: Lock, ws: Workspace, ws': Workspace, d: nat)
    requires RecordableAll(ws) && Records(lock, ws) && Later(ws, ws') && d <= |lock.dependencies|
    ensures forall c | c in DependencyChecks(lock.dependencies[..d], ws'.dependencies) :: PinHolds(c)
  {
    hide Canonical, Describes, Records, PinHolds, DependencyCheck;
    if d > 0 {
      assert lock.dependencies[..d][..d - 1] == lock.dependencies[..d - 1];
      DependencyPinsHold(lock, ws, ws', d - 1);
      DependencyPinHolds(lock, ws, ws', d - 1);
    }
  }

  lemma DependencyPinHolds(lock: Lock, ws: Workspace, ws': Workspace, d: nat)
    requires RecordableAll(ws) && Records(lock, ws) && Later(ws, ws') && d < |lock.dependencies|
    ensures forall c | c in DependencyCheck(lock.dependencies[d], ws'.dependencies) :: PinHolds(c)
  {
    hide Canonical;
    var e := lock.dependencies[d];
    assert DescribesOne(e, ws.dependencies);
    var i :| 0 <= i < |ws.dependencies| && Describes(e, ws.dependencies[i]);
    DependencyUrlsDistinct(ws);
    SameUrls(ws, ws');
    PositionOfDescribed(e, ws.dependencies, i);
    RecordableParts(ws);
    PinBringsBack(e, ws.dependencies[i], ws'.dependencies[i]);
  }

  lemma SameUrls(ws: Workspace, ws': Workspace)
    requires SameRepositories(ws, ws')
    ensures Urls(ws'.dependencies) == Urls(ws.dependencies)
  {
  }

  lemma PositionOfDescribed(e: LockEntry, links: seq<LinkState>, i: nat)
    requires NoDuplicates(Urls(links)) && i < |links| && Describes(e, links[i])
    ensures FirstPosition(Urls(links), Key(e)) == i
  {
    assert Urls(links)[i] == Key(e);
    FirstPositionFinds(Urls(links), Key(e));
  }

  /** A lock that records a workspace reproduces it: from any state of the same repositories, applying the lock and
      checking out brings every locked repository back to what was recorded, and verification finds nothing. */
  lemma Reproduces(lock: Lock, ws: Workspace, ws': Workspace, version: string, update: bool)
    requires RecordableAll(ws) && Records(lock, ws) && Identified(Entries(lock)) && Later(ws, ws')
    ensures var after := Synced(lock, false, ws', version, update);
      BroughtBack(ws, after) && Issues(Checks(lock, false, after)) == []
  {
    hide Canonical;
    RecordableParts(ws);
    PinBringsBack(lock.platform.value, ws.platform, ws'.platform);
    if IsRemote(ws.developing.repo) {
      PinBringsBack(lock.developing.value, ws.developing, ws'.developing);
    }
    forall i | 0 <= i < |ws.dependencies|
      ensures Present(Synced(lock, false, ws', version, update).dependencies[i]) == Present(ws.dependencies[i])
    {
      DependencyBroughtBack(lock, ws, ws', i, version, update);
    }
    SyncReadyHere(lock, ws, ws');
    AllPinsHold(lock, ws, ws');
    VerifiesExactlyWhenPinsHold(lock, false, ws', version, update);
  }

  lemma SyncReadyHere(lock: Lock, ws: Workspace, ws': Workspace)
    requires RecordableAll(ws) && Identified(Entries(lock)) && Later(ws, ws')
    ensures SyncReady(lock, false, ws')
    ensures forall c | c in DependencyChecks(lock.dependencies, ws'.dependencies) :: StableLink(c.0)
  {
    hide Canonical, StableUrl;
    RecordableParts(ws);
    forall i | 0 <= i < |ws'.dependencies|
      ensures Usable(ws'.dependencies[i]) && StableLink(ws'.dependencies[i]) && Faithful(ws'.dependencies[i].repo)
    {
      assert ws'.dependencies[i].repo == ws.dependencies[i].repo;
      assert Recordable(ws.dependencies[i]);
      StableLinkFixed(ws.dependencies[i]);
    }
    forall c | c in DependencyChecks(lock.dependencies, ws'.dependencies) ensures StableLink(c.0) {
      ComparedByUrl(lock.dependencies, ws'.dependencies, c);
    }
  }

  lemma AllPinsHold(lock: Lock, ws: Workspace, ws': Workspace)
    requires RecordableAll(ws) && Records(lock, ws) && Later(ws, ws')
    ensures AllHold(Checks(lock, false, ws'))
  {
    hide Canonical;
    RecordableParts(ws);
    assert lock.dependencies[..|lock.dependencies|] == lock.dependencies;
    DependencyPinsHold(lock, ws, ws', |lock.dependencies|);
    PinBringsBack(lock.platform.value, ws.platform, ws'.platform);
    if IsRemote(ws.developing.repo) {
      PinBringsBack(lock.developing.value, ws.developing, ws'.developing);
    }
    forall c | c in Checks(lock, false, ws') ensures PinHolds(c) {
      assert c in PlatformCheck(lock, ws'.platform) || c in DevelopingCheck(lock, false, ws'.developing)
        || c in DependencyChecks(lock.dependencies, ws'.dependencies);
    }
  }

  // ---- Collected locks identify repositories ------------------------------------------------------------------------

  lemma DescribedKeys(lock: Lock, ws: Workspace, x: string)
    requires Records(lock, ws)
    ensures x in Keys(lock.dependencies) ==> x in Urls(ws.dependencies)
  {
    hide Canonical, Present, IsRemote;
    if k :| 0 <= k < |lock.dependencies| && Key(lock.dependencies[k]) == x {
      assert DescribesOne(lock.dependencies[k], ws.dependencies);
      var i :| 0 <= i < |ws.dependencies| && Describes(lock.dependencies[k], ws.dependencies[i]);
      assert Urls(ws.dependencies)[i] == x;
    }
  }

  function OwnEntries(lock: Lock): seq<LockEntry> {
    OptSeq(lock.platform) + OptSeq(lock.developing)
  }

  /** A lock that records distinct repositories and lists no dependency twice identifies every entry. */
  lemma RecordsIdentified(lock: Lock, ws: Workspace)
    requires RecordableAll(ws) && Records(lock, ws) && NoDuplicates(Keys(lock.dependencies))
    ensures Identified(Entries(lock))
  {
    OwnKeys(lock, ws);
    UrlsConcat(Own(ws), ws.dependencies);
    NoDuplicatesPrefix(Urls(Own(ws)), Urls(ws.dependencies));
    forall x | x in Keys(lock.dependencies) ensures x !in Keys(OwnEntries(lock)) {
      DescribedKeys(lock, ws, x);
      DisjointParts(Urls(Own(ws)), Urls(ws.dependencies), x);
    }
    NoDuplicatesConcat(Keys(OwnEntries(lock)), Keys(lock.dependencies));
    KeysConcat(OwnEntries(lock), lock.dependencies);
    forall k | 0 <= k < |Entries(lock)| ensures Canonical(Entries(lock)[k].url).Some? && Entries(lock)[k].commit != "" {
      EntryUsable(lock, ws, k);
    }
  }

  lemma OwnKeys(lock: Lock, ws: Workspace)
    requires Records(lock, ws)
    ensures Keys(OwnEntries(lock)) == Urls(Own(ws))
  {
    assert Keys(OptSeq(lock.platform)) == Urls([ws.platform]);
    KeysConcat(OptSeq(lock.platform), OptSeq(lock.developing));
  }

  lemma EntryUsable(lock: Lock, ws: Workspace, k: nat)
    requires Records(lock, ws) && k < |Entries(lock)|
    ensures Canonical(Entries(lock)[k].url).Some? && Entries(lock)[k].commit != ""
  {
    var own := |Entries(lock)| - |lock.dependencies|;
    if k >= own {
      assert Entries(lock)[k] == lock.dependencies[k - own];
      assert DescribesOne(lock.dependencies[k - own], ws.dependencies);
    }
  }

  lemma SortedKeysDistinct(entries: seq<LockEntry>)
    requires NoDuplicates(Keys(entries))
    ensures NoDuplicates(Keys(SortEntries(entries)))
  {
    hide Key;
    var sorted := SortEntries(entries);
    forall i, j | 0 <= i < j < |entries| ensures entries[i] != entries[j] {
      assert Keys(entries)[i] != Keys(entries)[j];
    }
    SortNoDuplicates(EntryLeq, entries);
    forall i, j | 0 <= i < j < |sorted| ensures Key(sorted[i]) != Key(sorted[j]) {
      SortMembers(EntryLeq, entries, sorted[i]);
      SortMembers(EntryLeq, entries, sorted[j]);
      var a :| 0 <= a < |entries| && entries[a] == sorted[i];
      var b :| 0 <= b < |entries| && entries[b] == sorted[j];
      assert Keys(entries)[a] == Key(sorted[i]) && Keys(entries)[b] == Key(sorted[j]);
    }
  }

  lemma CollectedKeysDistinct(ws: Workspace)
    requires RecordableAll(ws) && Collected(ws).Some?
    ensures NoDuplicates(Keys(Collected(ws).value.dependencies))
    ensures Sorted(EntryLeq, Collected(ws).value.dependencies)
  {
    var entries := EntriesOf(ws.dependencies).value;
    DependencyUrlsDistinct(ws);
    RecordableParts(ws);
    forall i | 0 <= i < |entries| ensures Key(entries[i]) == Urls(ws.dependencies)[i] {
      EntryDescribes(ws.dependencies[i]);
    }
    assert Keys(entries) == Urls(ws.dependencies);
    SortedKeysDistinct(entries);
    EntryOrderIsTotal();
    SortSorted(EntryLeq, entries);
  }

  /** Update-lock, then a later run in any other scenario than developer: the collected lock brings every locked
      repository back to the recorded commit and verifies without drift. */
  lemma CollectedReproduces(ws: Workspace, ws': Workspace, version: string, update: bool)
    requires RecordableAll(ws) && Later(ws, ws')
    ensures Collected(ws).Some?
    ensures var lock := Collected(ws).value; var after := Synced(lock, false, ws', version, update);
      BroughtBack(ws, after) && Issues(Checks(lock, false, after)) == []
  {
    CollectedRecords(ws);
    CollectedKeysDistinct(ws);
    RecordsIdentified(Collected(ws).value, ws);
    Reproduces(Collected(ws).value, ws, ws', version, update);
  }

  // ---- By way of the manifest --------------------------------------------------------------------------------------------

  lemma ErasedDescribes(e: LockEntry, l: LinkState)
    requires Describes(e, l) && StableLink(l)
    ensures Describes(Erase(e), l) && Key(Erase(e)) == Key(e)
  {
    StableLinkFixed(l);
  }

  lemma ErasedDescribeOne(e: LockEntry, links: seq<LinkState>)
    requires DescribesOne(e, links) && forall i | 0 <= i < |links| :: StableLink(links[i])
    ensures DescribesOne(Erase(e), links) && Key(Erase(e)) == Key(e)
  {
    var i :| 0 <= i < |links| && Describes(e, links[i]);
    ErasedDescribes(e, links[i]);
  }

  lemma ErasedDescribedByOne(l: LinkState, entries: seq<LockEntry>)
    requires DescribedByOne(l, entries) && StableLink(l)
    ensures DescribedByOne(l, EraseAll(entries))
  {
    var k :| 0 <= k < |entries| && Describes(entries[k], l);
    ErasedDescribes(entries[k], l);
    assert Describes(EraseAll(entries)[k], l);
  }

  lemma ErasedDescribeExactly(entries: seq<LockEntry>, links: seq<LinkState>)
    requires DescribeExactly(entries, links) && forall i | 0 <= i < |links| :: StableLink(links[i])
    ensures DescribeExactly(EraseAll(entries), links) && Keys(EraseAll(entries)) == Keys(entries)
  {
    hide Canonical;
    var erased := EraseAll(entries);
    forall k | 0 <= k < |erased| ensures DescribesOne(erased[k], links) && Key(erased[k]) == Key(entries[k]) {
      assert DescribesOne(entries[k], links);
      ErasedDescribeOne(entries[k], links);
    }
    forall i | 0 <= i < |links| ensures DescribedByOne(links[i], erased) {
      assert DescribedByOne(links[i], entries);
      ErasedDescribedByOne(links[i], entries);
    }
  }

  lemma ErasedRecords(lock: Lock, ws: Workspace)
    requires RecordableAll(ws) && Records(lock, ws)
    ensures Records(EraseLock(lock), ws)
    ensures Keys(EraseLock(lock).dependencies) == Keys(lock.dependencies)
  {
    RecordableParts(ws);
    ErasedDescribes(lock.platform.value, ws.platform);
    if IsRemote(ws.developing.repo) {
      ErasedDescribes(lock.developing.value, ws.developing);
    }
    ErasedDescribeExactly(lock.dependencies, ws.dependencies);
  }

  function RawUrls(links: seq<LinkState>): seq<string> {
    seq(|links|, i requires 0 <= i < |links| => links[i].repo.url)
  }

  lemma RawUrlsDistinct(links: seq<LinkState>)
    requires NoDuplicates(Urls(links)) && forall i | 0 <= i < |links| :: Usable(links[i])
    ensures DistinctLinks(RawUrls(links))
  {
    forall i, j | 0 <= i < j < |links| ensures Canonical(RawUrls(links)[i]) != Canonical(RawUrls(links)[j]) {
      assert Urls(links)[i] != Urls(links)[j];
      assert Usable(links[i]) && Usable(links[j]);
    }
  }

  lemma LinkLocked(lock: Lock, l: LinkState, e: LockEntry)
    requires Identified(Entries(lock)) && DescribedByOne(l, lock.dependencies) && e in Entries(lock)
    requires Key(e) == ProjectUrl(l)
    ensures e in lock.dependencies
  {
    var d :| 0 <= d < |lock.dependencies| && Describes(lock.dependencies[d], l);
    EntriesMembers(lock, lock.dependencies[d]);
    SameKeySameEntry(Entries(lock), e, lock.dependencies[d]);
  }

  lemma DependencyUrlLocked(lock: Lock, ws: Workspace, i: nat, k: nat)
    requires Records(lock, ws) && Identified(Entries(lock))
    requires i < |ws.dependencies| && k < |Entries(lock)|
    requires Canonical(ws.dependencies[i].repo.url) == Some(Key(Entries(lock)[k]))
    ensures Entries(lock)[k] in lock.dependencies
  {
    assert DescribedByOne(ws.dependencies[i], lock.dependencies);
    LinkLocked(lock, ws.dependencies[i], Entries(lock)[k]);
  }

  lemma RecordedUrlsDistinct(ws: Workspace)
    requires RecordableAll(ws)
    ensures DistinctLinks(RawUrls(ws.dependencies))
  {
    hide StableUrl, Canonical;
    DependencyUrlsDistinct(ws);
    RecordableParts(ws);
    forall i | 0 <= i < |ws.dependencies| ensures Usable(ws.dependencies[i]) {
      StableLinkFixed(ws.dependencies[i]);
    }
    RawUrlsDistinct(ws.dependencies);
  }

  lemma DescribedHasLink(e: LockEntry, links: seq<LinkState>)
    requires DescribesOne(e, links) && forall i | 0 <= i < |links| :: Canonical(links[i].repo.url).Some?
    ensures exists i :: 0 <= i < |RawUrls(links)| && Canonical(RawUrls(links)[i]) == Some(Key(e))
  {
    hide Canonical;
    var i :| 0 <= i < |links| && Describes(e, links[i]);
    assert Canonical(RawUrls(links)[i]) == Some(Key(e));
  }

  lemma RawUrlsCover(lock: Lock, ws: Workspace)
    requires RecordableAll(ws) && Records(lock, ws) && Identified(Entries(lock))
    ensures LinksCover(lock, RawUrls(ws.dependencies))
  {
    hide Canonical, Key;
    var links := RawUrls(ws.dependencies);
    RecordedUrlsDistinct(ws);
    UrlsUsable(ws);
    forall e | e in lock.dependencies ensures exists i :: 0 <= i < |links| && Canonical(links[i]) == Some(Key(e)) {
      var k :| 0 <= k < |lock.dependencies| && lock.dependencies[k] == e;
      assert DescribesOne(lock.dependencies[k], ws.dependencies);
      DescribedHasLink(e, ws.dependencies);
    }
    forall i, k | 0 <= i < |links| && 0 <= k < |Entries(lock)| && Canonical(links[i]) == Some(Key(Entries(lock)[k]))
      ensures Entries(lock)[k] in lock.dependencies
    {
      DependencyUrlLocked(lock, ws, i, k);
    }
  }

  lemma UrlsUsable(ws: Workspace)
    requires RecordableAll(ws)
    ensures forall i | 0 <= i < |ws.dependencies| :: Canonical(ws.dependencies[i].repo.url).Some?
  {
    RecordableParts(ws);
  }

  lemma DescribedIsStable(e: LockEntry, l: LinkState)
    requires Describes(e, l) && StableLink(l)
    ensures StableUrl(e.url)
  {
    hide Canonical, StableUrl;
    StableLinkFixed(l);
    CanonicalTwice(e.url);
  }

  lemma RecordedKeysStable(lock: Lock, ws: Workspace)
    requires RecordableAll(ws) && Records(lock, ws)
    ensures StableKeys(lock.dependencies)
  {
    RecordableParts(ws);
    forall k | 0 <= k < |lock.dependencies| ensures StableUrl(lock.dependencies[k].url) {
      assert DescribesOne(lock.dependencies[k], ws.dependencies);
      var i :| 0 <= i < |ws.dependencies| && Describes(lock.dependencies[k], ws.dependencies[i]);
      DescribedIsStable(lock.dependencies[k], ws.dependencies[i]);
    }
  }

  /** The developing link handed to the rebuild: the remote one, or a local one that the lock does not know. */
  ghost predicate DevelopingLinkOf(lock: Lock, ws: Workspace, link: Option<string>) {
    if IsRemote(ws.developing.repo) then link == Some(ws.developing.repo.url)
    else link.Some? ==> forall k | 0 <= k < |Entries(lock)| :: Canonical(link.value) != Some(Key(Entries(lock)[k]))
  }

  lemma RebuiltFromManifest(ws: Workspace, developingLink: Option<string>)
    requires RecordableAll(ws) && Collected(ws).Some? && DevelopingLinkOf(Collected(ws).value, ws, developingLink)
    ensures var lock := Collected(ws).value;
      Rebuilt(PutAll([], Entries(lock)), ws.platform.repo.url, developingLink, RawUrls(ws.dependencies)) == Ok(EraseLock(lock))
  {
    var lock := Collected(ws).value;
    CollectedRecords(ws);
    CollectedKeysDistinct(ws);
    RecordsIdentified(lock, ws);
    RawUrlsCover(lock, ws);
    RecordedKeysStable(lock, ws);
    ManifestRoundTrip(lock, ws.platform.repo.url, developingLink, RawUrls(ws.dependencies));
  }

  /** Update-lock, copy to manifest `locks.git`, rebuild the lock from there in a later run: this reproduces the
      workspace just as well, although branches and kinds are lost on the way. */
  lemma ManifestReproduces(ws: Workspace, ws': Workspace, developingLink: Option<string>, version: string, update: bool)
    requires RecordableAll(ws) && Later(ws, ws')
    requires Collected(ws).Some? ==> DevelopingLinkOf(Collected(ws).value, ws, developingLink)
    ensures Collected(ws).Some?
    ensures var rebuilt := Rebuilt(PutAll([], Entries(Collected(ws).value)), ws.platform.repo.url, developingLink, RawUrls(ws.dependencies));
      rebuilt.Ok? && var after := Synced(rebuilt.value, false, ws', version, update);
        BroughtBack(ws, after) && Issues(Checks(rebuilt.value, false, after)) == []
  {
    CollectedRecords(ws);
    CollectedKeysDistinct(ws);
    ErasedRecords(Collected(ws).value, ws);
    RecordsIdentified(EraseLock(Collected(ws).value), ws);
    RebuiltFromManifest(ws, developingLink);
    Reproduces(EraseLock(Collected(ws).value), ws, ws', version, update);
  }
}
