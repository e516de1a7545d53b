/** Git dependency locks and their two forms: `.odpm/deps.lock.json` and manifest `locks.git`
    (git/deps_lock.py, manifest/locks.py). */
module DepsLocks {
  import opened Results
  import opened Text
  import opened Sequences
  import opened Ordering
  import opened RepoUrl

  datatype LockKind = Git | File

  datatype LockEntry = LockEntry(url: string, commit: string, branch: Option<string>, kind: LockKind)

  datatype Lock = Lock(platform: Option<LockEntry>, developing: Option<LockEntry>, dependencies: seq<LockEntry>)

  /** A JSON object of strings, in insertion order. */
  type GitLocks = seq<(string, string)>

  // ---- Entries -------------------------------------------------------------------------------------------

  /** The canonical URL an entry is stored and looked up by. */
  function Key(e: LockEntry): string {
    match Canonical(e.url) case Some(c) => c case None => ""
  }

  function Keys(entries: seq<LockEntry>): seq<string> {
    seq(|entries|, i requires 0 <= i < |entries| => Key(entries[i]))
  }

  predicate EntryLeq(a: LockEntry, b: LockEntry) {
    StringLeq(Key(a), Key(b))
  }

  /** `sort_lock_entries` */
  function SortEntries(entries: seq<LockEntry>): seq<LockEntry> {
    Sort(EntryLeq, entries)
  }

  function OptSeq<T>(value: Option<T>): seq<T> {
    if value.Some? then [value.value] else []
  }

  /** All entries: platform, developing, dependencies. */
  function Entries(lock: Lock): seq<LockEntry> {
    OptSeq(lock.platform) + OptSeq(lock.developing) + lock.dependencies
  }

  lemma EntryOrderIsTotal()
    ensures TotalPreorder(EntryLeq)
  {
    forall a, b ensures EntryLeq(a, b) || EntryLeq(b, a) {
      StringLeqTotal(Key(a), Key(b));
    }
    forall a, b, c | EntryLeq(a, b) && EntryLeq(b, c) ensures EntryLeq(a, c) {
      StringLeqTransitive(Key(a), Key(b), Key(c));
    }
  }

  // ---- To the manifest ----------------------------------------------------------------------------------------

  /** `d[key] = value` */
  function Put(d: GitLocks, key: string, value: string): GitLocks {
    if d == [] then [(key, value)]
    else if d[0].0 == key then [(key, value)] + d[1..]
    else [d[0]] + Put(d[1..], key, value)
  }

  function PutAll(d: GitLocks, entries: seq<LockEntry>): GitLocks
    decreases |entries|
  {
    if entries == [] then d else PutAll(Put(d, entries[0].url, entries[0].commit), entries[1..])
  }

  /** `git_locks_map_from_deps_lock` */
  method GitLocksFromLock(lock: Lock) returns (locks: GitLocks)
    ensures locks == PutAll([], Entries(lock))
  {
    locks := [];
    if lock.platform.Some? {
      locks := Put(locks, lock.platform.value.url, lock.platform.value.commit);
    }
    if lock.developing.Some? {
      locks := Put(locks, lock.developing.value.url, lock.developing.value.commit);
    }
    PutAllConcat([], OptSeq(lock.platform), OptSeq(lock.developing));
    PutAllConcat([], OptSeq(lock.platform) + OptSeq(lock.developing), lock.dependencies);
    for i := 0 to |lock.dependencies|
      invariant PutAll(locks, lock.dependencies[i..]) == PutAll([], Entries(lock))
    {
      assert lock.dependencies[i..][1..] == lock.dependencies[i + 1..];
      locks := Put(locks, lock.dependencies[i].url, lock.dependencies[i].commit);
    }
  }

  lemma {:induction false} PutAllConcat(d: GitLocks, a: seq<LockEntry>, b: seq<LockEntry>)
    ensures PutAll(d, a + b) == PutAll(PutAll(d, a), b)
    decreases |a|
  {
    if a == [] {
      assert a + b == b;
    } else {
      assert (a + b)[1..] == a[1..] + b;
      PutAllConcat(Put(d, a[0].url, a[0].commit), a[1..], b);
    }
  }

  function EntryUrls(entries: seq<LockEntry>): seq<string> {
    seq(|entries|, i requires 0 <= i < |entries| => entries[i].url)
  }

  function UrlsOf(locks: GitLocks): seq<string> {
    seq(|locks|, i requires 0 <= i < |locks| => locks[i].0)
  }

  /** Each URL as written becomes one key, in the order of first mention. */
  lemma {:induction false} PutAllKeys(d: GitLocks, entries: seq<LockEntry>)
    ensures UrlsOf(PutAll(d, entries)) == Extend(UrlsOf(d), EntryUrls(entries))
    decreases |entries|
  {
    if entries != [] {
      PutKeys(d, entries[0].url, entries[0].commit);
      assert EntryUrls(entries)[1..] == EntryUrls(entries[1..]);
      PutAllKeys(Put(d, entries[0].url, entries[0].commit), entries[1..]);
    }
  }

  lemma {:induction false} PutKeys(d: GitLocks, key: string, value: string)
    ensures UrlsOf(Put(d, key, value)) == if key in UrlsOf(d) then UrlsOf(d) else UrlsOf(d) + [key]
  {
    if d != [] {
      var after := Put(d, key, value);
      assert UrlsOf(d) == [d[0].0] + UrlsOf(d[1..]);
      assert UrlsOf(after) == [after[0].0] + UrlsOf(after[1..]);
      if d[0].0 != key {
        PutKeys(d[1..], key, value);
      }
    }
  }

  /** The last entry with this URL, as written, has this commit. */
  ghost predicate LastCommit(entries: seq<LockEntry>, url: string, commit: string) {
    exists i :: 0 <= i < |entries| && entries[i].url == url && entries[i].commit == commit
      && forall j | i < j < |entries| :: entries[j].url != url
  }

  /** Its commit is that of the last entry with that URL. */
  lemma {:induction false} PutAllCommit(entries: seq<LockEntry>, url: string, commit: string)
    ensures (url, commit) in PutAll([], entries) <==> LastCommit(entries, url, commit)
    decreases |entries|
  {
    if entries != [] {
      var n := |entries| - 1;
      var init, last := entries[..n], entries[n];
      assert entries == init + [last];
      PutAllConcat([], init, [last]);
      assert [last][1..] == [];
      PutAllKeys([], init);
      ExtendNoDuplicates([], EntryUrls(init));
      PutCommit(PutAll([], init), last.url, last.commit, url, commit);
      PutAllCommit(init, url, commit);
      LastCommitInit(entries, url, commit);
    }
  }

  lemma LastCommitInit(entries: seq<LockEntry>, url: string, commit: string)
    requires entries != []
    ensures var n := |entries| - 1;
      LastCommit(entries, url, commit) <==>
        if entries[n].url == url then entries[n].commit == commit else LastCommit(entries[..n], url, commit)
  {
    var n := |entries| - 1;
    var init := entries[..n];
    if LastCommit(entries, url, commit) && entries[n].url != url {
      var i :| 0 <= i < |entries| && entries[i].url == url && entries[i].commit == commit
        && forall j | i < j < |entries| :: entries[j].url != url;
      assert init[i] == entries[i];
    }
    if LastCommit(init, url, commit) && entries[n].url != url {
      var i :| 0 <= i < n && init[i].url == url && init[i].commit == commit && forall j | i < j < n :: init[j].url != url;
      assert entries[i] == init[i];
    }
  }

  lemma {:induction false} PutCommit(d: GitLocks, key: string, value: string, url: string, commit: string)
    requires NoDuplicates(UrlsOf(d))
    ensures (url, commit) in Put(d, key, value) <==> if url == key then commit == value else (url, commit) in d
  {
    if d != [] {
      var rest := d[1..];
      assert UrlsOf(d) == [d[0].0] + UrlsOf(rest);
      NoDuplicatesSuffix([d[0].0], UrlsOf(rest));
      assert d == [d[0]] + rest;
      if d[0].0 == key {
        forall p | p in rest ensures p.0 != key {
          var i :| 0 <= i < |rest| && rest[i] == p;
          assert UrlsOf(d)[0] != UrlsOf(d)[i + 1] == p.0;
        }
      } else {
        PutCommit(rest, key, value, url, commit);
      }
    }
  }

  function Pairs(entries: seq<LockEntry>): GitLocks {
    seq(|entries|, i requires 0 <= i < |entries| => (entries[i].url, entries[i].commit))
  }

  lemma {:induction false} PutFresh(d: GitLocks, key: string, value: string)
    requires forall i | 0 <= i < |d| :: d[i].0 != key
    ensures Put(d, key, value) == d + [(key, value)]
  {
    if d != [] {
      PutFresh(d[1..], key, value);
    }
  }

  lemma {:induction false} PutAllFresh(done: seq<LockEntry>, entries: seq<LockEntry>)
    requires NoDuplicates(Keys(done + entries))
    ensures PutAll(Pairs(done), entries) == Pairs(done + entries)
    decreases |entries|
  {
    if entries == [] {
      assert done + entries == done;
    } else {
      var e := entries[0];
      forall i | 0 <= i < |done| ensures Pairs(done)[i].0 != e.url {
        assert Keys(done + entries)[i] == Key(done[i]) && Keys(done + entries)[|done|] == Key(e);
      }
      PutFresh(Pairs(done), e.url, e.commit);
      assert Pairs(done) + [(e.url, e.commit)] == Pairs(done + [e]);
      assert done + [e] + entries[1..] == done + entries;
      PutAllFresh(done + [e], entries[1..]);
    }
  }

  // ---- Lookup in the manifest -------------------------------------------------------------------------------

  function CommitAt(locks: GitLocks, i: nat): Option<string> {
    if i < |locks| then Some(locks[i].1) else None
  }

  function FirstExact(locks: GitLocks, link: string): Option<string> {
    CommitAt(locks, FirstPosition(seq(|locks|, i requires 0 <= i < |locks| => locks[i].0), link))
  }

  function CanonicalKeys(locks: GitLocks): seq<Option<string>> {
    seq(|locks|, i requires 0 <= i < |locks| => Canonical(locks[i].0))
  }

  function FirstCanonical(locks: GitLocks, target: Option<string>): Option<string> {
    CommitAt(locks, FirstPosition(CanonicalKeys(locks), target))
  }

  /** `lookup_git_lock_commit` */
  function LookupCommit(locks: GitLocks, gitLink: string): Option<string> {
    var link := Strip(gitLink);
    if link == "" || locks == [] then None
    else if FirstExact(locks, link).Some? then FirstExact(locks, link)
    else FirstCanonical(locks, Canonical(link))
  }

  lemma FirstExactFinds(locks: GitLocks, link: string) returns (i: nat)
    ensures FirstExact(locks, link).Some? ==> i < |locks| && locks[i].0 == link && FirstExact(locks, link) == Some(locks[i].1)
    ensures FirstExact(locks, link).None? ==> forall j | 0 <= j < |locks| :: locks[j].0 != link
  {
    var keys := seq(|locks|, i requires 0 <= i < |locks| => locks[i].0);
    i := FirstPosition(keys, link);
    FirstPositionFinds(keys, link);
    if link !in keys {
      forall j | 0 <= j < |locks| ensures locks[j].0 != link {
        assert keys[j] in keys;
      }
    }
  }

  lemma FirstCanonicalFinds(locks: GitLocks, target: Option<string>) returns (i: nat)
    ensures FirstCanonical(locks, target).Some? ==> i < |locks| && Canonical(locks[i].0) == target && FirstCanonical(locks, target) == Some(locks[i].1)
    ensures FirstCanonical(locks, target).None? ==> forall j | 0 <= j < |locks| :: Canonical(locks[j].0) != target
  {
    i := FirstPosition(CanonicalKeys(locks), target);
    FirstPositionFinds(CanonicalKeys(locks), target);
    if target !in CanonicalKeys(locks) {
      forall j | 0 <= j < |locks| ensures Canonical(locks[j].0) != target {
        assert CanonicalKeys(locks)[j] in CanonicalKeys(locks);
      }
    }
  }

  /** Every entry has a usable URL and commit, and no two entries mean the same repository. */
  ghost predicate Identified(entries: seq<LockEntry>) {
    && (forall i | 0 <= i < |entries| :: Canonical(entries[i].url).Some? && entries[i].commit != "")
    && NoDuplicates(Keys(entries))
  }

  lemma SameKeySameIndex(entries: seq<LockEntry>, i: nat, j: nat)
    requires Identified(entries) && i < |entries| && j < |entries|
    requires Key(entries[i]) == Key(entries[j])
    ensures i == j
  {
    assert Keys(entries)[i] == Keys(entries)[j];
  }

  lemma SameKeySameEntry(entries: seq<LockEntry>, x: LockEntry, y: LockEntry)
    requires Identified(entries) && x in entries && y in entries && Key(x) == Key(y)
    ensures x == y
  {
    hide Canonical;
    var i :| 0 <= i < |entries| && entries[i] == x;
    var j :| 0 <= j < |entries| && entries[j] == y;
    SameKeySameIndex(entries, i, j);
  }

  lemma EntriesMembers(lock: Lock, e: LockEntry)
    ensures e in Entries(lock) <==> lock.platform == Some(e) || lock.developing == Some(e) || e in lock.dependencies
  {
    ConcatMembers(OptSeq(lock.platform) + OptSeq(lock.developing), lock.dependencies, e);
    ConcatMembers(OptSeq(lock.platform), OptSeq(lock.developing), e);
  }

  /** A link to a locked repository, in any spelling, finds that repository's commit; */
  lemma LookupFinds(entries: seq<LockEntry>, i: nat, link: string)
    requires Identified(entries) && i < |entries|
    requires Canonical(link) == Some(Key(entries[i]))
    ensures LookupCommit(Pairs(entries), link) == Some(entries[i].commit)
  {
    var locks, stripped := Pairs(entries), Strip(link);
    CanonicalOfStripped(link);
    assert stripped != "";
    if FirstExact(locks, stripped).Some? {
      var j := FirstExactFinds(locks, stripped);
      SameKeySameIndex(entries, i, j);
    } else {
      var j := FirstCanonicalFinds(locks, Canonical(stripped));
      assert Canonical(locks[i].0) == Canonical(stripped);
      SameKeySameIndex(entries, i, j);
    }
  }

  /** a link to any other repository finds nothing. */
  lemma LookupMisses(entries: seq<LockEntry>, link: string)
    requires Identified(entries)
    requires forall i | 0 <= i < |entries| :: Canonical(link) != Some(Key(entries[i]))
    ensures LookupCommit(Pairs(entries), link) == None
  {
    var locks, stripped := Pairs(entries), Strip(link);
    CanonicalOfStripped(link);
    forall j | 0 <= j < |locks| ensures locks[j].0 != stripped && Canonical(locks[j].0) != Canonical(stripped) {
      assert Canonical(locks[j].0) == Some(Key(entries[j])) != Canonical(link);
    }
    var i := FirstExactFinds(locks, stripped);
    var j := FirstCanonicalFinds(locks, Canonical(stripped));
  }

  // ---- From the manifest --------------------------------------------------------------------------------------

  function EntryForLink(locks: GitLocks, link: string): Option<LockEntry> {
    match LookupCommit(locks, link)
    case Some(commit) =>
      if commit != "" && Canonical(link).Some? then Some(LockEntry(Canonical(link).value, commit, None, Git)) else None
    case None => None
  }

  function Found(locks: GitLocks, links: seq<string>): seq<LockEntry> {
    if links == [] then [] else OptSeq(EntryForLink(locks, links[0])) + Found(locks, links[1..])
  }

  method FoundEntries(locks: GitLocks, links: seq<string>) returns (entries: seq<LockEntry>)
    ensures entries == Found(locks, links)
  {
    entries := [];
    for i := 0 to |links|
      invariant entries + Found(locks, links[i..]) == Found(locks, links)
    {
      assert links[i..][1..] == links[i + 1..];
      var entry := EntryForLink(locks, links[i]);
      if entry.Some? {
        AppendCons(entries, entry.value, Found(locks, links[i + 1..]));
        entries := entries + [entry.value];
      } else {
        assert [] + Found(locks, links[i + 1..]) == Found(locks, links[i + 1..]);
      }
    }
  }

  /** `deps_lock_from_manifest_git_locks`: raises when the platform is not locked. */
  method LockFromManifest(locks: GitLocks, platformLink: string, developingLink: Option<string>,
                          dependencyLinks: seq<string>) returns (result: Result<Lock, string>)
    ensures result == Rebuilt(locks, platformLink, developingLink, dependencyLinks)
  {
    var platform := EntryForLink(locks, platformLink);
    if platform.None? {
      return Err(platformLink);
    }
    var developing := None;
    if developingLink.Some? && developingLink.value != "" {
      developing := EntryForLink(locks, developingLink.value);
    }
    var dependencies := FoundEntries(locks, dependencyLinks);
    result := Ok(Lock(platform, developing, SortEntries(dependencies)));
  }

  function Rebuilt(locks: GitLocks, platformLink: string, developingLink: Option<string>, dependencyLinks: seq<string>)
    : Result<Lock, string>
  {
    match EntryForLink(locks, platformLink)
    case None => Err(platformLink)
    case Some(platform) =>
      Ok(Lock(Some(platform),
              if developingLink.Some? && developingLink.value != "" then EntryForLink(locks, developingLink.value) else None,
              SortEntries(Found(locks, dependencyLinks))))
  }

  // ---- The round trip ------------------------------------------------------------------------------------------------

  /** What an entry keeps: canonical URL and commit. */
  function Erase(e: LockEntry): LockEntry {
    LockEntry(Key(e), e.commit, None, Git)
  }

  function EraseAll(entries: seq<LockEntry>): seq<LockEntry> {
    seq(|entries|, i requires 0 <= i < |entries| => Erase(entries[i]))
  }

  function EraseLock(lock: Lock): Lock {
    Lock(if lock.platform.Some? then Some(Erase(lock.platform.value)) else None,
         if lock.developing.Some? then Some(Erase(lock.developing.value)) else None,
         EraseAll(lock.dependencies))
  }

  lemma EntryForLinkFinds(entries: seq<LockEntry>, i: nat, link: string)
    requires Identified(entries) && i < |entries|
    requires Canonical(link) == Some(Key(entries[i]))
    ensures EntryForLink(Pairs(entries), link) == Some(Erase(entries[i]))
  {
    LookupFinds(entries, i, link);
  }

  lemma EntryForLinkMisses(entries: seq<LockEntry>, link: string)
    requires Identified(entries)
    requires forall i | 0 <= i < |entries| :: Canonical(link) != Some(Key(entries[i]))
    ensures EntryForLink(Pairs(entries), link) == None
  {
    LookupMisses(entries, link);
  }

  lemma {:induction false} FoundMembers(locks: GitLocks, links: seq<string>, x: LockEntry)
    ensures x in Found(locks, links) <==> exists i :: 0 <= i < |links| && EntryForLink(locks, links[i]) == Some(x)
  {
    hide Canonical, EntryForLink;
    if links != [] {
      FoundMembers(locks, links[1..], x);
      if i :| 0 <= i < |links| && EntryForLink(locks, links[i]) == Some(x) && i > 0 {
        assert links[1..][i - 1] == links[i];
      }
      if x in Found(locks, links[1..]) {
        var i :| 0 <= i < |links[1..]| && EntryForLink(locks, links[1..][i]) == Some(x);
        assert links[i + 1] == links[1..][i];
      }
    }
  }

  /** No two links mean the same repository. */
  ghost predicate DistinctLinks(links: seq<string>) {
    forall i, j | 0 <= i < j < |links| :: Canonical(links[i]) != Canonical(links[j])
  }

  lemma {:induction false} FoundDistinct(locks: GitLocks, links: seq<string>)
    requires DistinctLinks(links)
    ensures NoDuplicates(Found(locks, links))
    ensures forall x | x in Found(locks, links) :: exists i :: 0 <= i < |links| && Canonical(links[i]) == Some(x.url)
  {
    if links != [] {
      var rest := links[1..];
      forall i, j | 0 <= i < j < |rest| ensures Canonical(rest[i]) != Canonical(rest[j]) {
        assert rest[i] == links[i + 1] && rest[j] == links[j + 1];
      }
      FoundDistinct(locks, rest);
      var head := EntryForLink(locks, links[0]);
      if head.Some? {
        forall j | 0 <= j < |Found(locks, rest)| ensures Found(locks, rest)[j] != head.value {
          var x := Found(locks, rest)[j];
          assert x in Found(locks, rest);
          var k :| 0 <= k < |rest| && Canonical(rest[k]) == Some(x.url);
          assert rest[k] == links[k + 1];
        }
      }
      forall x | x in Found(locks, links) ensures exists i :: 0 <= i < |links| && Canonical(links[i]) == Some(x.url) {
        if x in Found(locks, rest) {
          var k :| 0 <= k < |rest| && Canonical(rest[k]) == Some(x.url);
          assert Canonical(links[k + 1]) == Some(x.url);
        } else {
          assert Canonical(links[0]) == Some(x.url);
        }
      }
    }
  }

  /** The dependency links name exactly the locked dependencies, in any order and spelling; further links may
      follow as long as they name nothing that is locked. */
  ghost predicate LinksCover(lock: Lock, links: seq<string>) {
    && DistinctLinks(links)
    && (forall e | e in lock.dependencies :: exists i :: 0 <= i < |links| && Canonical(links[i]) == Some(Key(e)))
    && (forall i, k | 0 <= i < |links| && 0 <= k < |Entries(lock)| && Canonical(links[i]) == Some(Key(Entries(lock)[k])) ::
          Entries(lock)[k] in lock.dependencies)
  }

  lemma LockedEntry(entries: seq<LockEntry>, link: string) returns (k: nat)
    requires Identified(entries) && EntryForLink(Pairs(entries), link).Some?
    ensures k < |entries| && Canonical(link) == Some(Key(entries[k]))
    ensures EntryForLink(Pairs(entries), link) == Some(Erase(entries[k]))
  {
    hide Canonical;
    if forall i | 0 <= i < |entries| :: Canonical(link) != Some(Key(entries[i])) {
      EntryForLinkMisses(entries, link);
    }
    k :| 0 <= k < |entries| && Canonical(link) == Some(Key(entries[k]));
    EntryForLinkFinds(entries, k, link);
  }

  lemma FoundIsDependency(lock: Lock, links: seq<string>, x: LockEntry)
    requires Identified(Entries(lock)) && LinksCover(lock, links)
    requires x in Found(Pairs(Entries(lock)), links)
    ensures x in EraseAll(lock.dependencies)
  {
    hide Canonical;
    FoundMembers(Pairs(Entries(lock)), links, x);
    var i :| 0 <= i < |links| && EntryForLink(Pairs(Entries(lock)), links[i]) == Some(x);
    var k := LockedEntry(Entries(lock), links[i]);
    var d :| 0 <= d < |lock.dependencies| && lock.dependencies[d] == Entries(lock)[k];
    assert EraseAll(lock.dependencies)[d] == x;
  }

  lemma DependencyIsFound(lock: Lock, links: seq<string>, x: LockEntry)
    requires Identified(Entries(lock)) && LinksCover(lock, links)
    requires x in EraseAll(lock.dependencies)
    ensures x in Found(Pairs(Entries(lock)), links)
  {
    hide Canonical;
    var entries := Entries(lock);
    var d :| 0 <= d < |lock.dependencies| && EraseAll(lock.dependencies)[d] == x;
    var e := lock.dependencies[d];
    assert e in lock.dependencies;
    var i :| 0 <= i < |links| && Canonical(links[i]) == Some(Key(e));
    var k := |entries| - |lock.dependencies| + d;
    assert entries[k] == e;
    EntryForLinkFinds(entries, k, links[i]);
    FoundMembers(Pairs(entries), links, x);
  }

  /** Erased entries with stable URLs keep their keys, so they stay sorted and distinct. */
  lemma ErasedKeys(e: LockEntry)
    requires StableUrl(e.url)
    ensures Key(Erase(e)) == Key(e)
  {
    CanonicalTwice(e.url);
  }

  ghost predicate StableKeys(entries: seq<LockEntry>) {
    forall i | 0 <= i < |entries| :: StableUrl(entries[i].url)
  }

  lemma ErasedKeysStay(entries: seq<LockEntry>)
    requires StableKeys(entries)
    ensures Keys(EraseAll(entries)) == Keys(entries)
  {
    forall i | 0 <= i < |entries| ensures Key(EraseAll(entries)[i]) == Key(entries[i]) {
      ErasedKeys(entries[i]);
    }
  }

  /** Order depends on keys only. */
  lemma SameKeysSorted(a: seq<LockEntry>, b: seq<LockEntry>)
    requires Keys(a) == Keys(b)
    ensures Sorted(EntryLeq, a) ==> Sorted(EntryLeq, b)
  {
    hide Key;
    if Sorted(EntryLeq, a) {
      forall i, j | 0 <= i < j < |b| ensures EntryLeq(b[i], b[j]) {
        assert Keys(a)[i] == Keys(b)[i] && Keys(a)[j] == Keys(b)[j];
        assert EntryLeq(a[i], a[j]);
      }
    }
  }

  lemma DistinctKeysDistinctEntries(entries: seq<LockEntry>)
    requires NoDuplicates(Keys(entries))
    ensures NoDuplicates(entries)
  {
    hide Key;
    forall i, j | 0 <= i < j < |entries| ensures entries[i] != entries[j] {
      assert Keys(entries)[i] != Keys(entries)[j];
    }
  }

  lemma FoundMembersAreDependencies(lock: Lock, links: seq<string>)
    requires Identified(Entries(lock)) && LinksCover(lock, links)
    ensures forall x :: x in EraseAll(lock.dependencies) <==> x in SortEntries(Found(Pairs(Entries(lock)), links))
  {
    hide Canonical;
    var found := Found(Pairs(Entries(lock)), links);
    forall x ensures x in EraseAll(lock.dependencies) <==> x in SortEntries(found) {
      SortMembers(EntryLeq, found, x);
      if x in EraseAll(lock.dependencies) {
        DependencyIsFound(lock, links, x);
      }
      if x in found {
        FoundIsDependency(lock, links, x);
      }
    }
  }

  /** With distinct keys no two entries tie. */
  lemma NoTies(entries: seq<LockEntry>)
    requires NoDuplicates(Keys(entries))
    ensures forall x, y | x in entries && y in entries && EntryLeq(x, y) && EntryLeq(y, x) :: x == y
  {
    hide Key;
    forall x, y | x in entries && y in entries && EntryLeq(x, y) && EntryLeq(y, x) ensures x == y {
      var i :| 0 <= i < |entries| && entries[i] == x;
      var j :| 0 <= j < |entries| && entries[j] == y;
      StringLeqAntisymmetric(Key(x), Key(y));
      assert Keys(entries)[i] == Keys(entries)[j];
    }
  }

  lemma FoundIsSortable(lock: Lock, links: seq<string>)
    requires LinksCover(lock, links)
    ensures var sorted := SortEntries(Found(Pairs(Entries(lock)), links));
      Sorted(EntryLeq, sorted) && NoDuplicates(sorted) && TotalPreorder(EntryLeq)
  {
    var found := Found(Pairs(Entries(lock)), links);
    EntryOrderIsTotal();
    SortSorted(EntryLeq, found);
    FoundDistinct(Pairs(Entries(lock)), links);
    SortNoDuplicates(EntryLeq, found);
  }

  lemma RebuiltDependenciesExactlyWhen(lock: Lock, links: seq<string>)
    requires Identified(Entries(lock)) && LinksCover(lock, links) && NoDuplicates(Keys(EraseAll(lock.dependencies)))
    ensures SortEntries(Found(Pairs(Entries(lock)), links)) == EraseAll(lock.dependencies) <==>
      Sorted(EntryLeq, EraseAll(lock.dependencies))
  {
    hide Identified, LinksCover, Key, EntryLeq, Found, TotalPreorder;
    var erased := EraseAll(lock.dependencies);
    FoundIsSortable(lock, links);
    if Sorted(EntryLeq, erased) {
      DistinctKeysDistinctEntries(erased);
      FoundMembersAreDependencies(lock, links);
      NoTies(erased);
      SortedUnique(EntryLeq, erased, SortEntries(Found(Pairs(Entries(lock)), links)));
    }
  }

  lemma DependencyKeysDistinct(lock: Lock)
    requires NoDuplicates(Keys(Entries(lock)))
    ensures NoDuplicates(Keys(lock.dependencies))
  {
    var head := OptSeq(lock.platform) + OptSeq(lock.developing);
    KeysConcat(head, lock.dependencies);
    NoDuplicatesSuffix(Keys(head), Keys(lock.dependencies));
  }

  lemma KeysConcat(a: seq<LockEntry>, b: seq<LockEntry>)
    ensures Keys(a + b) == Keys(a) + Keys(b)
  {
    hide Key;
    forall i | 0 <= i < |a + b| ensures Keys(a + b)[i] == (Keys(a) + Keys(b))[i] {
      assert (a + b)[i] == if i < |a| then a[i] else b[i - |a|];
    }
  }

  lemma DependencyAt(lock: Lock, d: nat)
    requires d < |lock.dependencies|
    ensures |Entries(lock)| >= |lock.dependencies|
    ensures Entries(lock)[|Entries(lock)| - |lock.dependencies| + d] == lock.dependencies[d]
  {
  }

  /** The links name the platform and the developing repository, if one is locked; otherwise the developing link names
      nothing that is locked. */
  ghost predicate LinksMatch(lock: Lock, platformLink: string, developingLink: Option<string>) {
    && lock.platform.Some? && Canonical(platformLink) == Some(Key(lock.platform.value))
    && (lock.developing.Some? ==> developingLink.Some? && Canonical(developingLink.value) == Some(Key(lock.developing.value)))
    && (lock.developing.None? && developingLink.Some? ==>
          forall k | 0 <= k < |Entries(lock)| :: Canonical(developingLink.value) != Some(Key(Entries(lock)[k])))
  }

  /** Writing a lock to manifest `locks.git` and rebuilding it from the project's links, in any order and spelling, gives
      the same platform, developing and dependency commits in the same order if and only if the dependencies are in the
      order of their keys canonicalised once more. */
  lemma ManifestRoundTripExactlyWhen(lock: Lock, platformLink: string, developingLink: Option<string>, links: seq<string>)
    requires Identified(Entries(lock)) && LinksMatch(lock, platformLink, developingLink) && LinksCover(lock, links)
    requires NoDuplicates(Keys(EraseAll(lock.dependencies)))
    ensures Rebuilt(PutAll([], Entries(lock)), platformLink, developingLink, links) == Ok(EraseLock(lock)) <==>
      Sorted(EntryLeq, EraseAll(lock.dependencies))
  {
    hide LinksCover, Found, Sorted;
    var entries := Entries(lock);
    PutAllFreshStart(entries);
    EntryForLinkFinds(entries, 0, platformLink);
    if lock.developing.Some? {
      EntryForLinkFinds(entries, 1, developingLink.value);
      assert developingLink.value != "";
    } else if developingLink.Some? {
      EntryForLinkMisses(entries, developingLink.value);
    }
    RebuiltDependenciesExactlyWhen(lock, links);
  }

  /** With stable URLs a sorted lock is in that order. */
  lemma ManifestRoundTrip(lock: Lock, platformLink: string, developingLink: Option<string>, links: seq<string>)
    requires Identified(Entries(lock)) && LinksMatch(lock, platformLink, developingLink) && LinksCover(lock, links)
    requires Sorted(EntryLeq, lock.dependencies) && StableKeys(lock.dependencies)
    ensures Rebuilt(PutAll([], Entries(lock)), platformLink, developingLink, links) == Ok(EraseLock(lock))
  {
    hide LinksMatch, LinksCover, Rebuilt, Key, EntryLeq;
    DependencyKeysDistinct(lock);
    ErasedKeysStay(lock.dependencies);
    SameKeysSorted(lock.dependencies, EraseAll(lock.dependencies));
    ManifestRoundTripExactlyWhen(lock, platformLink, developingLink, links);
  }

  lemma PutAllFreshStart(entries: seq<LockEntry>)
    requires NoDuplicates(Keys(entries))
    ensures PutAll([], entries) == Pairs(entries)
  {
    assert [] + entries == entries;
    PutAllFresh([], entries);
    assert Pairs([]) == [];
  }

  // ---- Divergence between the two forms ---------------------------------------------------------------------------------

  /** `normalized_git_lock_commits`: the last entry for a repository wins. */
  function Normalized(locks: GitLocks): map<string, string> {
    if locks == [] then map[]
    else
      var init := Normalized(locks[..|locks| - 1]);
      match Canonical(locks[|locks| - 1].0)
      case Some(c) => init[c := locks[|locks| - 1].1]
      case None => init
  }

  /** The last key for the repository has this commit. */
  ghost predicate LockedAt(locks: GitLocks, url: string, commit: string) {
    exists i :: 0 <= i < |locks| && Canonical(locks[i].0) == Some(url) && locks[i].1 == commit
      && forall j | i < j < |locks| :: Canonical(locks[j].0) != Some(url)
  }

  ghost predicate NotLocked(locks: GitLocks, url: string) {
    forall i | 0 <= i < |locks| :: Canonical(locks[i].0) != Some(url)
  }

  /** The normalised map holds, for each repository that some key means, the commit of the last such key. */
  lemma {:induction false} NormalizedExactlyWhen(locks: GitLocks, url: string)
    ensures url !in Normalized(locks) <==> NotLocked(locks, url)
    ensures forall commit :: LockedAt(locks, url, commit) <==> url in Normalized(locks) && Normalized(locks)[url] == commit
  {
    hide Canonical;
    if locks != [] {
      var n := |locks| - 1;
      NormalizedExactlyWhen(locks[..n], url);
      LockedAtInit(locks, url);
    }
  }

  lemma LockedAtInit(locks: GitLocks, url: string)
    requires locks != []
    ensures var n := |locks| - 1;
      && (Canonical(locks[n].0) != Some(url) ==>
            && (NotLocked(locks, url) <==> NotLocked(locks[..n], url))
            && (forall commit :: LockedAt(locks, url, commit) <==> LockedAt(locks[..n], url, commit)))
      && (Canonical(locks[n].0) == Some(url) ==>
            !NotLocked(locks, url) && forall commit :: LockedAt(locks, url, commit) <==> commit == locks[n].1)
  {
    hide Canonical;
    var n := |locks| - 1;
    var init := locks[..n];
    if Canonical(locks[n].0) != Some(url) {
      forall commit ensures LockedAt(locks, url, commit) <==> LockedAt(init, url, commit) {
        if LockedAt(locks, url, commit) {
          var i :| 0 <= i < |locks| && Canonical(locks[i].0) == Some(url) && locks[i].1 == commit
            && forall j | i < j < |locks| :: Canonical(locks[j].0) != Some(url);
          assert init[i] == locks[i];
        }
        if LockedAt(init, url, commit) {
          var i :| 0 <= i < n && Canonical(init[i].0) == Some(url) && init[i].1 == commit
            && forall j | i < j < n :: Canonical(init[j].0) != Some(url);
          assert locks[i] == init[i];
        }
      }
    }
  }

  datatype Divergence = CommitsDiffer(url: string) | OnlyInManifest(url: string) | OnlyInDepsLock(url: string)

  function DivergenceAt(manifest: map<string, string>, deps: map<string, string>, url: string): Option<Divergence> {
    if url in manifest && url in deps then
      if manifest[url] == deps[url] then None
      else if manifest[url] != "" && deps[url] != "" then Some(CommitsDiffer(url))
      else if manifest[url] != "" then Some(OnlyInManifest(url)) else Some(OnlyInDepsLock(url))
    else if url in manifest then Some(if manifest[url] != "" then OnlyInManifest(url) else OnlyInDepsLock(url))
    else if url in deps then Some(OnlyInDepsLock(url))
    else None
  }

  /** What is to be reported, over the keys and commits of both sides; an empty commit counts as none. */
  ghost predicate Diverges(manifest: GitLocks, deps: GitLocks, x: Divergence) {
    match x
    case CommitsDiffer(url) =>
      exists c, d :: LockedAt(manifest, url, c) && LockedAt(deps, url, d) && c != d && c != "" && d != ""
    case OnlyInManifest(url) =>
      (exists c :: c != "" && LockedAt(manifest, url, c)) && (NotLocked(deps, url) || LockedAt(deps, url, ""))
    case OnlyInDepsLock(url) =>
      || (LockedAt(manifest, url, "") && NotLocked(deps, url))
      || (exists d :: LockedAt(deps, url, d) && (NotLocked(manifest, url) || (d != "" && LockedAt(manifest, url, ""))))
  }

  lemma DivergesExactlyWhen(manifest: GitLocks, deps: GitLocks, x: Divergence)
    ensures DivergenceAt(Normalized(manifest), Normalized(deps), x.url) == Some(x) <==> Diverges(manifest, deps, x)
  {
    hide LockedAt, NotLocked, Normalized;
    var m, d, url := Normalized(manifest), Normalized(deps), x.url;
    NormalizedExactlyWhen(manifest, url);
    NormalizedExactlyWhen(deps, url);
    if url in m {
      assert LockedAt(manifest, url, m[url]);
    }
    if url in d {
      assert LockedAt(deps, url, d[url]);
    }
  }

  /** Nothing is to be reported exactly when both sides mean the same repositories and give them the same commits. */
  lemma NoDivergenceExactlyWhen(manifest: GitLocks, deps: GitLocks)
    ensures Normalized(manifest) == Normalized(deps) <==>
      forall url, commit :: LockedAt(manifest, url, commit) <==> LockedAt(deps, url, commit)
  {
    hide LockedAt, NotLocked, Normalized;
    var m, d := Normalized(manifest), Normalized(deps);
    forall url, commit
      ensures LockedAt(manifest, url, commit) <==> url in m && m[url] == commit
      ensures LockedAt(deps, url, commit) <==> url in d && d[url] == commit
    {
      NormalizedExactlyWhen(manifest, url);
      NormalizedExactlyWhen(deps, url);
    }
    if forall url, commit :: LockedAt(manifest, url, commit) <==> LockedAt(deps, url, commit) {
      forall url ensures url in m <==> url in d {
        if url in m {
          assert LockedAt(manifest, url, m[url]);
        }
        if url in d {
          assert LockedAt(deps, url, d[url]);
        }
      }
      forall url | url in m ensures m[url] == d[url] {
        assert LockedAt(manifest, url, m[url]);
      }
    }
  }

  ghost predicate InUrlOrder(divergences: seq<Divergence>) {
    forall i, j | 0 <= i < j < |divergences| ::
      StringLeq(divergences[i].url, divergences[j].url) && divergences[i].url != divergences[j].url
  }

  method CollectDivergences(m: map<string, string>, d: map<string, string>, urls: seq<string>)
    returns (divergences: seq<Divergence>)
    requires forall i, j | 0 <= i < j < |urls| :: StringLeq(urls[i], urls[j]) && urls[i] != urls[j]
    ensures forall x :: x in divergences <==> x.url in urls && DivergenceAt(m, d, x.url) == Some(x)
    ensures InUrlOrder(divergences)
  {
    divergences := [];
    for i := 0 to |urls|
      invariant forall x :: x in divergences <==> x.url in urls[..i] && DivergenceAt(m, d, x.url) == Some(x)
      invariant InUrlOrder(divergences)
    {
      var found := DivergenceAt(m, d, urls[i]);
      assert urls[..i + 1] == urls[..i] + [urls[i]];
      if found.Some? {
        forall k | 0 <= k < |divergences|
          ensures StringLeq(divergences[k].url, urls[i]) && divergences[k].url != urls[i]
        {
          assert divergences[k] in divergences;
          var j :| 0 <= j < i && urls[..i][j] == divergences[k].url;
        }
        divergences := divergences + [found.value];
      }
    }
    assert urls[..|urls|] == urls;
  }

  /** `compare_manifest_and_deps_git_locks`: one line per repository on which the two differ, in URL order; none exactly
      when both sides give the same commits to the same repositories. */
  method CompareLocks(manifestLocks: GitLocks, lock: Lock) returns (divergences: seq<Divergence>)
    requires forall i | 0 <= i < |manifestLocks| :: Canonical(manifestLocks[i].0).Some?
    ensures var depsLocks := PutAll([], Entries(lock));
      && (forall x :: x in divergences <==> Diverges(manifestLocks, depsLocks, x))
      && (divergences == [] <==> forall url, c :: LockedAt(manifestLocks, url, c) <==> LockedAt(depsLocks, url, c))
      && InUrlOrder(divergences)
  {
    hide Canonical, Normalized, DivergenceAt, LockedAt, Diverges;
    var m := Normalized(manifestLocks);
    var depsLocks := GitLocksFromLock(lock);
    var d := Normalized(depsLocks);
    var urls := SortedKeys(m.Keys + d.Keys);
    divergences := CollectDivergences(m, d, urls);
    DivergenceKeys(m, d);
    NoDivergenceMeansEqual(m, d);
    EmptyExactlyWhen(m, d, divergences);
    NoDivergenceExactlyWhen(manifestLocks, depsLocks);
    forall x ensures x in divergences <==> Diverges(manifestLocks, depsLocks, x) {
      DivergesExactlyWhen(manifestLocks, depsLocks, x);
    }
  }

  lemma DivergenceKeys(m: map<string, string>, d: map<string, string>)
    ensures forall url | DivergenceAt(m, d, url).Some? :: url in m.Keys + d.Keys
  {
  }

  lemma EmptyExactlyWhen(m: map<string, string>, d: map<string, string>, divergences: seq<Divergence>)
    requires forall x: Divergence :: x in divergences <==> x.url in m.Keys + d.Keys && DivergenceAt(m, d, x.url) == Some(x)
    ensures divergences == [] <==> forall url :: DivergenceAt(m, d, url).None?
  {
    if url :| DivergenceAt(m, d, url).Some? {
      var x := DivergenceAt(m, d, url).value;
      assert x.url == url && x in divergences;
    } else if divergences != [] {
      var x := divergences[0];
      assert x in divergences;
    }
  }

  lemma NoDivergenceMeansEqual(m: map<string, string>, d: map<string, string>)
    ensures m == d <==> forall url :: DivergenceAt(m, d, url).None?
  {
    if forall url :: DivergenceAt(m, d, url).None? {
      forall url ensures url in m <==> url in d {
        assert DivergenceAt(m, d, url).None?;
      }
      forall url | url in m ensures m[url] == d[url] {
        assert DivergenceAt(m, d, url).None?;
      }
    }
  }

  /** `sorted(keys)` */
  method SortedKeys(keys: set<string>) returns (sorted: seq<string>)
    ensures forall k :: k in sorted <==> k in keys
    ensures forall i, j | 0 <= i < j < |sorted| :: StringLeq(sorted[i], sorted[j]) && sorted[i] != sorted[j]
  {
    var list: seq<string> := [];
    var left := keys;
    while left != {}
      invariant left <= keys
      invariant forall k :: k in list <==> k in keys && k !in left
      invariant NoDuplicates(list)
      decreases left
    {
      var k :| k in left;
      left := left - {k};
      list := list + [k];
    }
    sorted := Sort(StringLeq, list);
    StringOrderIsTotal();
    SortSorted(StringLeq, list);
    SortNoDuplicates(StringLeq, list);
    forall k ensures k in sorted <==> k in keys {
      SortMembers(StringLeq, list, k);
    }
  }
}
