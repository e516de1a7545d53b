/** The lock file `.odpm/deps.lock.json`: entries and locks to JSON objects and back (git/deps_lock.py). */
module LockFile {
  import opened Results
  import opened Text
  import opened RepoUrl
  import opened DepsLocks
  import opened LockedCheckout
  import opened LockCollection

  const SCHEMA_VERSION := 1
  const GIT_KIND := "git"
  const FILE_KIND := "file"

  /** An entry's JSON object: the text of each key that is there. */
  datatype EntryJson = EntryJson(url: Option<string>, commit: Option<string>, branch: Option<string>, kind: Option<string>)

  datatype LockJson = LockJson(version: int, generatedAt: string, platform: Option<EntryJson>, developing: Option<EntryJson>,
                               dependencies: seq<EntryJson>, serviceSources: map<string, EntryJson>)

  /** A lock with the time it was made and the entries of the service sources. */
  datatype LockDocument = LockDocument(generatedAt: string, lock: Lock, serviceSources: map<string, LockEntry>)

  datatype LockError =
    | MissingPlatform
    | UrlAndCommitRequired
    | InvalidCommit(commit: string)
    | UnsupportedKind(kind: string)
    | UnsupportedVersion(version: int)
    | InvalidServiceSource

  // ---- Entries ---------------------------------------------------------------------------------------------

  /** `LockEntry.to_dict`: branch and kind only where they say something. */
  function EntryToDict(e: LockEntry): EntryJson {
    EntryJson(Some(e.url), Some(e.commit), if e.branch == Some("") then None else e.branch, if e.kind == File then Some(FILE_KIND) else None)
  }

  function TextOf(v: Option<string>): string {
    Strip(if v.Some? then v.value else "")
  }

  function KindFromDict(url: string, kind: Option<string>): Result<LockKind, LockError> {
    if kind.None? then Ok(if FILE <= url then File else Git)
    else if kind.value == GIT_KIND then Ok(Git)
    else if kind.value == FILE_KIND then Ok(File)
    else Err(UnsupportedKind(kind.value))
  }

  /** `LockEntry.from_dict` */
  function EntryFromDict(j: EntryJson): Result<LockEntry, LockError> {
    var url, commit := TextOf(j.url), TextOf(j.commit);
    if url == "" || commit == "" then Err(UrlAndCommitRequired)
    else if !AcceptedCommit(commit) then Err(InvalidCommit(commit))
    else
      var kind :- KindFromDict(url, j.kind);
      Ok(LockEntry(url, commit, if j.branch == Some("") then None else j.branch, kind))
  }

  /** An entry is read exactly when it has a URL, a commit of 7 to 40 digits and no unknown kind; what is read is stripped,
      and without a kind the URL says which it is. */
  lemma EntryReadExactlyWhen(j: EntryJson)
    ensures EntryFromDict(j).Ok? <==>
      && j.url.Some? && !AllSpace(j.url.value) && j.commit.Some? && AcceptedCommit(Strip(j.commit.value))
      && (j.kind.None? || j.kind.value == "git" || j.kind.value == "file")
    ensures EntryFromDict(j).Ok? ==>
      var kind := if j.kind == Some("file") || (j.kind.None? && "file://" <= Strip(j.url.value)) then File else Git;
      var branch := if j.branch == Some("") then None else j.branch;
      EntryFromDict(j) == Ok(LockEntry(Strip(j.url.value), Strip(j.commit.value), branch, kind))
  {
    hide Strip;
    BlankText("");
    if j.url.Some? {
      BlankText(j.url.value);
    }
  }

  lemma BlankText(s: string)
    ensures Strip(s) == "" <==> AllSpace(s)
  {
    if AllSpace(s) {
      StripFinds(s, "", "");
      assert s + "" + "" == s;
    }
    var pre, post := StripCuts(s);
    assert Strip(s) == "" ==> s == pre + post;
  }

  /** What an entry needs to be read back as it was written: a file URL must not be called a git entry. */
  predicate Writable(e: LockEntry) {
    && e.url != "" && IsStripped(e.url) && AcceptedCommit(e.commit)
    && e.branch != Some("") && !(e.kind == Git && FILE <= e.url)
  }

  lemma AcceptedIsStripped(commit: string)
    requires AcceptedCommit(commit)
    ensures Strip(commit) == commit
  {
    assert HexDigit(commit[0]) && HexDigit(commit[|commit| - 1]);
    StripIsStripped(commit);
  }

  lemma EntryRoundTripExactlyWhen(e: LockEntry)
    ensures EntryFromDict(EntryToDict(e)) == Ok(e) <==> Writable(e)
  {
    StripIsStripped(e.url);
    StripIsStripped(e.commit);
    if AcceptedCommit(e.commit) {
      AcceptedIsStripped(e.commit);
    }
  }

  // ---- Locks -----------------------------------------------------------------------------------------------------

  function EntriesToDict(entries: seq<LockEntry>): seq<EntryJson> {
    seq(|entries|, i requires 0 <= i < |entries| => EntryToDict(entries[i]))
  }

  /** `DepsLock.to_dict`: raises without a platform. */
  function ToDict(d: LockDocument): Result<LockJson, LockError> {
    if d.lock.platform.None? then Err(MissingPlatform)
    else Ok(LockJson(SCHEMA_VERSION, d.generatedAt, Some(EntryToDict(d.lock.platform.value)),
                     if d.lock.developing.Some? then Some(EntryToDict(d.lock.developing.value)) else None,
                     EntriesToDict(d.lock.dependencies),
                     map name | name in d.serviceSources :: EntryToDict(d.serviceSources[name])))
  }

  function EntriesFromDict(items: seq<EntryJson>): Result<seq<LockEntry>, LockError> {
    if items == [] then Ok([])
    else
      var first :- EntryFromDict(items[0]);
      var rest :- EntriesFromDict(items[1..]);
      Ok([first] + rest)
  }

  function OptionalFromDict(j: Option<EntryJson>): Result<Option<LockEntry>, LockError> {
    if j.None? then Ok(None)
    else
      var e :- EntryFromDict(j.value);
      Ok(Some(e))
  }

  /** Every service source has to be an entry. */
  function SourcesFromDict(items: map<string, EntryJson>): Result<map<string, LockEntry>, LockError> {
    if forall name | name in items :: EntryFromDict(items[name]).Ok?
    then Ok(map name | name in items :: EntryFromDict(items[name]).value)
    else Err(InvalidServiceSource)
  }

  /** `DepsLock.from_dict`: developing is read first, then the service sources, the platform and the dependencies. */
  function FromDict(j: LockJson): Result<LockDocument, LockError> {
    if j.version != SCHEMA_VERSION then Err(UnsupportedVersion(j.version))
    else if j.platform.None? then Err(MissingPlatform)
    else
      var developing :- OptionalFromDict(j.developing);
      var sources :- SourcesFromDict(j.serviceSources);
      var platform :- EntryFromDict(j.platform.value);
      var dependencies :- EntriesFromDict(j.dependencies);
      Ok(LockDocument(j.generatedAt, Lock(Some(platform), developing, dependencies), sources))
  }

  lemma {:induction false} EntriesRoundTrip(entries: seq<LockEntry>)
    ensures EntriesFromDict(EntriesToDict(entries)) == Ok(entries) <==> forall i | 0 <= i < |entries| :: Writable(entries[i])
  {
    hide Writable, EntryToDict, EntryFromDict;
    if entries != [] {
      EntryRoundTripExactlyWhen(entries[0]);
      assert EntriesToDict(entries)[1..] == EntriesToDict(entries[1..]);
      EntriesRoundTrip(entries[1..]);
      assert entries == [entries[0]] + entries[1..];
      if forall i | 0 <= i < |entries| :: Writable(entries[i]) {
        forall i | 0 <= i < |entries[1..]| ensures Writable(entries[1..][i]) {
          assert entries[1..][i] == entries[i + 1];
        }
      } else if forall i | 0 <= i < |entries[1..]| :: Writable(entries[1..][i]) {
        assert !Writable(entries[0]) by {
          var i :| 0 <= i < |entries| && !Writable(entries[i]);
          assert i > 0 ==> entries[1..][i - 1] == entries[i];
        }
      }
    }
  }

  lemma SourcesRoundTrip(sources: map<string, LockEntry>)
    ensures SourcesFromDict(map name | name in sources :: EntryToDict(sources[name])) == Ok(sources) <==>
      forall name | name in sources :: Writable(sources[name])
  {
    hide Writable, EntryToDict, EntryFromDict;
    var items := map name | name in sources :: EntryToDict(sources[name]);
    forall name | name in sources ensures EntryFromDict(items[name]) == Ok(sources[name]) <==> Writable(sources[name]) {
      EntryRoundTripExactlyWhen(sources[name]);
    }
    if forall name | name in sources :: Writable(sources[name]) {
      assert (map name | name in items :: EntryFromDict(items[name]).value) == sources;
    }
    if SourcesFromDict(items) == Ok(sources) {
      forall name | name in sources ensures Writable(sources[name]) {
        assert name in items && SourcesFromDict(items).value[name] == EntryFromDict(items[name]).value;
      }
    }
  }

  predicate WritableLock(lock: Lock) {
    && lock.platform.Some? && Writable(lock.platform.value)
    && (lock.developing.Some? ==> Writable(lock.developing.value))
    && (forall i | 0 <= i < |lock.dependencies| :: Writable(lock.dependencies[i]))
  }

  function Reloaded(d: LockDocument): Result<LockDocument, LockError> {
    var json :- ToDict(d);
    FromDict(json)
  }

  /** A lock survives writing and reading exactly when it has a platform and every entry, of repositories and of
      service sources, is writable. */
  lemma LockRoundTripExactlyWhen(d: LockDocument)
    ensures Reloaded(d) == Ok(d) <==> WritableLock(d.lock) && forall name | name in d.serviceSources :: Writable(d.serviceSources[name])
  {
    hide Writable, EntryToDict, EntryFromDict, SourcesFromDict;
    EntriesRoundTrip(d.lock.dependencies);
    SourcesRoundTrip(d.serviceSources);
    if d.lock.platform.Some? {
      EntryRoundTripExactlyWhen(d.lock.platform.value);
    }
    if d.lock.developing.Some? {
      EntryRoundTripExactlyWhen(d.lock.developing.value);
    }
  }

  // ---- Collected locks can be loaded -------------------------------------------------------------------------------

  lemma CanonicalNoSpace(url: string)
    requires Canonical(url).Some?
    ensures NoSpace(Canonical(url).value)
  {
    TakeWordHasNoSpace(StripLeft(url));
    CanonNoSpace(Normalize(Token(url)));
  }

  /** What is recorded of the link has the form of a commit, an explicit branch has a name, and only local links are
      file URLs. */
  predicate Loadable(l: LinkState) {
    && ProjectUrl(l) != "" && CommitToLock(l).Some? && AcceptedCommit(CommitToLock(l).value)
    && (l.branchExplicit ==> l.branch != "") && (FILE <= ProjectUrl(l) ==> l.repo.linkType == LocalFilesystem)
  }

  lemma EntryOfLoadable(l: LinkState)
    requires EntryOf(l).Some?
    ensures Writable(EntryOf(l).value) <==> Loadable(l)
  {
    if Canonical(l.repo.url).Some? {
      CanonicalNoSpace(l.repo.url);
    }
  }

  lemma WritableExactlyWhen(lock: Lock)
    ensures WritableLock(lock) <==> lock.platform.Some? && forall e | e in Entries(lock) :: Writable(e)
  {
    hide Writable;
    forall e ensures e in Entries(lock) <==> lock.platform == Some(e) || lock.developing == Some(e) || e in lock.dependencies {
      EntriesMembers(lock, e);
    }
  }

  /** The lock that is collected from a workspace can be written and loads unchanged if and only if every covered link
      is loadable. */
  lemma CollectedLoadsExactlyWhen(ws: Workspace, generatedAt: string)
    requires Collected(ws).Some?
    ensures var d := LockDocument(generatedAt, Collected(ws).value, map[]);
      Reloaded(d) == Ok(d) <==> forall i | 0 <= i < |Locked(ws)| :: Loadable(Locked(ws)[i])
  {
    hide Writable, Loadable, EntryOf, Collected, Reloaded, WritableLock;
    var lock := Collected(ws).value;
    CollectedParts(ws);
    LockRoundTripExactlyWhen(LockDocument(generatedAt, lock, map[]));
    WritableExactlyWhen(lock);
    if forall e | e in Entries(lock) :: Writable(e) {
      forall i | 0 <= i < |Locked(ws)| ensures Loadable(Locked(ws)[i]) {
        CoveredHasEntry(ws, i);
        CollectedEntry(ws, EntryOf(Locked(ws)[i]).value);
        EntryOfLoadable(Locked(ws)[i]);
      }
    }
    if forall i | 0 <= i < |Locked(ws)| :: Loadable(Locked(ws)[i]) {
      forall e | e in Entries(lock) ensures Writable(e) {
        var i := EntryLink(ws, e);
        EntryOfLoadable(Locked(ws)[i]);
      }
    }
  }
}
