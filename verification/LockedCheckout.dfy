/** Applying a git lock to the workspace repositories and verifying what was checked out
    (git/deps_lock_manager.py, git/deps_lock.py, git/checkout.py, project_env/links.py). */
module LockedCheckout {
  import opened Results
  import opened Sequences
  import opened Text
  import opened RepoUrl
  import opened DepsLocks

  // ---- Repositories and links -----------------------------------------------------------------------------

  datatype LinkType = Http | GitScheme | Ssh | LocalFilesystem

  /** What a link points at and what git answers there: `resolve` gives the commit a ref names, `pull` the commit
      that a pull moves HEAD to, `snapshot` the fingerprint of a tree without a repository. */
  datatype Repository = Repository(url: string, present: bool, linkType: LinkType, isRepo: bool,
                                   resolve: string -> string, pull: string -> string, snapshot: string)

  /** A link: its repository, the parsed or locked pin, and the commit HEAD is at. */
  datatype LinkState = LinkState(repo: Repository, commit: string, commitExplicit: bool,
                                 branch: string, branchExplicit: bool, head: string)

  /** A commit name git prints: 40 lower-case hexadecimal digits. */
  predicate FullCommit(c: string) {
    |c| == 40 && forall i | 0 <= i < |c| :: '0' <= c[i] <= '9' || 'a' <= c[i] <= 'f'
  }

  predicate HexDigit(c: char) {
    '0' <= c <= '9' || 'a' <= c <= 'f' || 'A' <= c <= 'F'
  }

  /** `^[0-9a-fA-F]{7,40}$` */
  predicate AcceptedCommit(c: string) {
    7 <= |c| <= 40 && forall i | 0 <= i < |c| :: HexDigit(c[i])
  }

  /** The digits, and how many of them: 40 for what git prints, in lower case, and from 7 on for what a lock accepts. */
  lemma CommitsListed(c: char, n: nat)
    ensures HexDigit(c) <==> c in {'0', '1', '2', '3', '4', '5', '6', '7', '8', '9', 'a', 'b', 'c', 'd', 'e', 'f',
                                   'A', 'B', 'C', 'D', 'E', 'F'}
    ensures FullCommit(seq(n, _ => c)) <==> n == 40 && HexDigit(c) && !('A' <= c <= 'F')
    ensures AcceptedCommit(seq(n, _ => c)) <==> 7 <= n <= 40 && HexDigit(c)
  {
    if n > 0 {
      assert seq(n, _ => c)[0] == c;
    }
  }

  /** Refs resolve to full commit names, and a full commit name to itself. */
  ghost predicate Faithful(repo: Repository) {
    && (forall ref :: FullCommit(repo.resolve(ref)))
    && (forall c | FullCommit(c) :: repo.resolve(c) == c)
  }

  /** `is_remote_git_link` */
  predicate IsRemote(repo: Repository) {
    repo.present && repo.linkType != LocalFilesystem
  }

  /** `repo_url_for_link` */
  function ProjectUrl(l: LinkState): string {
    match Canonical(l.repo.url) case Some(c) => c case None => ""
  }

  /** A link whose URL and canonical URL are not blank; both are canonicalised without a check. */
  predicate Usable(l: LinkState) {
    Canonical(l.repo.url).Some? && Canonical(ProjectUrl(l)).Some?
  }

  /** `apply_lock_entry_to_link` */
  function Pinned(l: LinkState, e: LockEntry): (r: LinkState)
    ensures r.repo == l.repo && r.commit == e.commit && r.commitExplicit
  {
    var l := l.(commit := e.commit, commitExplicit := true);
    if e.branch.Some? && e.branch.value != "" then l.(branch := e.branch.value, branchExplicit := true) else l
  }

  /** A link moved to the commit that `ref` names; trees that are no clones stay as they are. */
  function MovedTo(l: LinkState, ref: string): LinkState {
    if l.repo.linkType == LocalFilesystem || !l.repo.isRepo then l else l.(head := l.repo.resolve(ref))
  }

  /** `checkout_parsed_or_version`, and the pull that follows for a link without an explicit commit. */
  function CheckedOut(l: LinkState, version: string, update: bool): (r: LinkState)
    ensures r.repo == l.repo
    ensures l.commitExplicit ==> r == MovedTo(l, l.commit)
  {
    var l := MovedTo(l, if l.commitExplicit then l.commit else if l.branchExplicit then l.branch else version);
    if update && !l.commitExplicit && l.repo.isRepo then l.(head := l.repo.pull(l.head)) else l
  }

  /** `resolved_checkout_commit`; no result where it raises. */
  function Current(l: LinkState, e: LockEntry): Option<string> {
    if l.repo.isRepo then Some(l.head)
    else if e.kind == File || l.repo.linkType == LocalFilesystem then Some(l.repo.snapshot)
    else None
  }

  /** `resolve_lock_commit`; no result where it raises. */
  function CommitToLock(l: LinkState): Option<string> {
    if l.commitExplicit && AcceptedCommit(l.commit) then Some(l.commit)
    else if l.repo.isRepo then Some(l.head)
    else if l.repo.linkType == LocalFilesystem then Some(l.repo.snapshot)
    else None
  }

  // ---- Issues -----------------------------------------------------------------------------------------------

  datatype Issue =
    | SeedMissing(url: string)
    | StaleDependency(url: string)
    | StaleDeveloping(url: string)
    | CannotVerify(url: string)
    | Drift(url: string, pinned: string, found: string)

  /** What reporting `issues` one by one does: in strict mode the first one raises, otherwise all are logged. */
  ghost predicate Reports(strict: bool, before: seq<Issue>, issues: seq<Issue>, after: seq<Issue>,
                          r: Result<(), Issue>) {
    if strict && issues != [] then r == Err(issues[0]) && after == before
    else r == Ok(()) && after == before + issues
  }

  lemma ReportsThen(strict: bool, a: seq<Issue>, xs: seq<Issue>, b: seq<Issue>, ys: seq<Issue>, c: seq<Issue>,
                    r: Result<(), Issue>)
    requires Reports(strict, a, xs, b, Ok(())) && Reports(strict, b, ys, c, r)
    ensures Reports(strict, a, xs + ys, c, r)
  {
    assert strict ==> xs + ys == ys;
  }

  function CanonicalUrls(entries: seq<LockEntry>): seq<Option<string>> {
    seq(|entries|, i requires 0 <= i < |entries| => Canonical(entries[i].url))
  }

  function FirstEntry(entries: seq<LockEntry>, key: Option<string>): Option<LockEntry> {
    var i := FirstPosition(CanonicalUrls(entries), key);
    if i < |entries| then Some(entries[i]) else None
  }

  /** `entry_for_url`: platform before developing before dependencies. */
  function EntryFor(lock: Lock, url: string): Option<LockEntry> {
    FirstEntry(Entries(lock), Canonical(url))
  }

  function SeedIssues(lock: Lock, seeds: seq<string>): seq<Issue> {
    if seeds == [] then []
    else
      var last := seeds[|seeds| - 1];
      SeedIssues(lock, seeds[..|seeds| - 1]) + if EntryFor(lock, last).None? then [SeedMissing(last)] else []
  }

  function Urls(links: seq<LinkState>): seq<string> {
    seq(|links|, i requires 0 <= i < |links| => ProjectUrl(links[i]))
  }

  function StaleIssues(entries: seq<LockEntry>, urls: seq<string>): seq<Issue> {
    if entries == [] then []
    else
      var last := entries[|entries| - 1];
      StaleIssues(entries[..|entries| - 1], urls) + if Key(last) in urls then [] else [StaleDependency(last.url)]
  }

  /** `_check_stale_developing_entry`, which developers skip. */
  function DevelopingIssues(lock: Lock, developer: bool, developing: LinkState): seq<Issue> {
    if lock.developing.None? || developer then []
    else if !IsRemote(developing.repo) || ProjectUrl(developing) != Key(lock.developing.value)
    then [StaleDeveloping(lock.developing.value.url)]
    else []
  }

  // ---- Applying -----------------------------------------------------------------------------------------------

  datatype Workspace = Workspace(platform: LinkState, developing: LinkState, dependencies: seq<LinkState>)

  predicate AppliesDeveloping(lock: Lock, developer: bool, developing: LinkState) {
    lock.developing.Some? && !developer && IsRemote(developing.repo)
  }

  function AppliedDependency(lock: Lock, l: LinkState): (r: LinkState)
    ensures r.repo == l.repo
  {
    match EntryFor(lock, ProjectUrl(l)) case Some(e) => Pinned(l, e) case None => l
  }

  function AppliedDependencies(lock: Lock, links: seq<LinkState>): seq<LinkState> {
    seq(|links|, i requires 0 <= i < |links| => AppliedDependency(lock, links[i]))
  }

  function Applied(lock: Lock, developer: bool, ws: Workspace): Workspace {
    Workspace(
      if lock.platform.Some? then Pinned(ws.platform, lock.platform.value) else ws.platform,
      if AppliesDeveloping(lock, developer, ws.developing) then Pinned(ws.developing, lock.developing.value) else ws.developing,
      AppliedDependencies(lock, ws.dependencies))
  }

  /** The key of the entry a dependency link is pinned by. */
  function PinOf(lock: Lock, l: LinkState): Option<string> {
    match EntryFor(lock, ProjectUrl(l)) case Some(e) => Some(Key(e)) case None => None
  }

  function Values(options: seq<Option<string>>): set<string> {
    set i | 0 <= i < |options| && options[i].Some? :: options[i].value
  }

  function PinsOf(lock: Lock, links: seq<LinkState>): seq<Option<string>> {
    seq(|links|, i requires 0 <= i < |links| => PinOf(lock, links[i]))
  }

  function DependencyPins(lock: Lock, links: seq<LinkState>): set<string> {
    Values(PinsOf(lock, links))
  }

  /** The URLs recorded as pinned. */
  function AppliedPins(lock: Lock, developer: bool, ws: Workspace): set<string> {
    (if lock.platform.Some? then {Key(lock.platform.value)} else {}) +
    (if AppliesDeveloping(lock, developer, ws.developing) then {Key(lock.developing.value)} else {}) +
    DependencyPins(lock, ws.dependencies)
  }

  // ---- Verification ---------------------------------------------------------------------------------------------

  /** A repository and the entry it is compared with. */
  type Check = (LinkState, LockEntry)

  function CheckIssues(check: Check): seq<Issue> {
    match Current(check.0, check.1)
    case None => [CannotVerify(check.1.url)]
    case Some(c) => if c == check.1.commit then [] else [Drift(check.1.url, check.1.commit, c)]
  }

  function Issues(checks: seq<Check>): seq<Issue> {
    if checks == [] then [] else Issues(checks[..|checks| - 1]) + CheckIssues(checks[|checks| - 1])
  }

  /** `_project_for_url` */
  function FirstWithUrl(links: seq<LinkState>, url: string): Option<LinkState> {
    var i := FirstPosition(Urls(links), url);
    if i < |links| then Some(links[i]) else None
  }

  function DependencyCheck(e: LockEntry, links: seq<LinkState>): seq<Check> {
    match FirstWithUrl(links, Key(e)) case Some(l) => [(l, e)] case None => []
  }

  function DependencyChecks(entries: seq<LockEntry>, links: seq<LinkState>): seq<Check> {
    if entries == [] then []
    else DependencyChecks(entries[..|entries| - 1], links) + DependencyCheck(entries[|entries| - 1], links)
  }

  function PlatformCheck(lock: Lock, platform: LinkState): seq<Check> {
    if lock.platform.Some? then [(platform, lock.platform.value)] else []
  }

  function DevelopingCheck(lock: Lock, developer: bool, developing: LinkState): seq<Check> {
    if AppliesDeveloping(lock, developer, developing) then [(developing, lock.developing.value)] else []
  }

  function OwnChecks(lock: Lock, developer: bool, ws: Workspace): seq<Check> {
    PlatformCheck(lock, ws.platform) + DevelopingCheck(lock, developer, ws.developing)
  }

  /** Every comparison `verify_after_checkout` makes, in order. */
  function Checks(lock: Lock, developer: bool, ws: Workspace): seq<Check> {
    OwnChecks(lock, developer, ws) + DependencyChecks(lock.dependencies, ws.dependencies)
  }

  /** The repository is at its pin. */
  predicate AtPin(check: Check) {
    Current(check.0, check.1) == Some(check.1.commit)
  }

  ghost predicate AllAtPin(checks: seq<Check>) {
    forall i | 0 <= i < |checks| :: AtPin(checks[i])
  }

  lemma {:induction false} IssuesConcat(a: seq<Check>, b: seq<Check>)
    ensures Issues(a + b) == Issues(a) + Issues(b)
    decreases |b|
  {
    if b == [] {
      assert a + b == a;
    } else {
      var init := b[..|b| - 1];
      assert (a + b)[..|a + b| - 1] == a + init;
      IssuesConcat(a, init);
    }
  }

  /** Verification finds nothing exactly when every checked repository is at its pin. */
  lemma {:induction false} NoIssuesExactlyWhen(checks: seq<Check>)
    ensures Issues(checks) == [] <==> AllAtPin(checks)
  {
    if checks != [] {
      var init := checks[..|checks| - 1];
      NoIssuesExactlyWhen(init);
      if AllAtPin(init) {
        forall i | 0 <= i < |checks| - 1 ensures AtPin(checks[i]) {
          assert init[i] == checks[i];
        }
      } else {
        var i :| 0 <= i < |init| && !AtPin(init[i]);
        assert checks[i] == init[i];
      }
    }
  }

  // ---- Apply, check out, verify ------------------------------------------------------------------------------------

  /** `_should_checkout_developing` */
  predicate ChecksOutDeveloping(developer: bool, l: LinkState, pins: set<string>) {
    IsRemote(l.repo) && (l.branchExplicit || l.commitExplicit || (!developer && ProjectUrl(l) in pins))
  }

  /** `checkout_project`: pinned repositories are not updated. */
  function CheckedOutUnpinned(l: LinkState, pins: set<string>, version: string, update: bool): (r: LinkState)
    ensures r.repo == l.repo
    ensures l.commitExplicit ==> r == MovedTo(l, l.commit)
  {
    CheckedOut(l, version, update && ProjectUrl(l) !in pins)
  }

  function CheckedOutEach(links: seq<LinkState>, pins: set<string>, version: string, update: bool): seq<LinkState> {
    seq(|links|, i requires 0 <= i < |links| => CheckedOutUnpinned(links[i], pins, version, update))
  }

  /** `checkout_dependencies` */
  function CheckedOutWorkspace(developer: bool, ws: Workspace, pins: set<string>, version: string, update: bool): Workspace {
    Workspace(CheckedOutUnpinned(ws.platform, pins, version, update),
              if ChecksOutDeveloping(developer, ws.developing, pins) then CheckedOutUnpinned(ws.developing, pins, version, update) else ws.developing,
              CheckedOutEach(ws.dependencies, pins, version, update))
  }

  /** The workspace after the locks were applied and everything was checked out. */
  function Synced(lock: Lock, developer: bool, ws: Workspace, version: string, update: bool): Workspace {
    CheckedOutWorkspace(developer, Applied(lock, developer, ws), AppliedPins(lock, developer, ws), version, update)
  }

  /** Where HEAD ends up: trees without a repository stay as they are, file clones are not moved to a ref, and after that
      what is to be updated is pulled. */
  function HeadAt(l: LinkState, ref: string, pull: bool): string {
    var moved := if l.repo.linkType == LocalFilesystem then l.head else l.repo.resolve(ref);
    if !l.repo.isRepo then l.head else if pull then l.repo.pull(moved) else moved
  }

  /** What becomes of a link that the entry `x`, if any, is applied to: pinned and at the locked commit; else at its own
      commit, else at its own branch, else at the version, and then pulled if asked to unless its URL counts as pinned. */
  ghost predicate SyncedLink(l: LinkState, x: Option<LockEntry>, version: string, pull: bool, after: LinkState) {
    if x.Some? then after == Pinned(l, x.value).(head := HeadAt(l, x.value.commit, false))
    else after == l.(head := if l.commitExplicit then HeadAt(l, l.commit, false)
                             else HeadAt(l, if l.branchExplicit then l.branch else version, pull))
  }

  /** What becomes of the platform and of every dependency; the entry of a dependency is the first one that means the
      repository of its canonical URL. */
  lemma LinksAfterSync(lock: Lock, developer: bool, ws: Workspace, version: string, update: bool, i: nat, k: int)
    requires i < |ws.dependencies|
    requires var url := Canonical(ProjectUrl(ws.dependencies[i]));
      && 0 <= k <= |Entries(lock)| && (k < |Entries(lock)| ==> Canonical(Entries(lock)[k].url) == url)
      && forall j | 0 <= j < k :: Canonical(Entries(lock)[j].url) != url
    ensures var after, pins := Synced(lock, developer, ws, version, update), AppliedPins(lock, developer, ws);
      && SyncedLink(ws.platform, lock.platform, version, update && ProjectUrl(ws.platform) !in pins, after.platform)
      && |after.dependencies| == |ws.dependencies|
      && SyncedLink(ws.dependencies[i], if k < |Entries(lock)| then Some(Entries(lock)[k]) else None, version,
                    update && ProjectUrl(ws.dependencies[i]) !in pins, after.dependencies[i])
  {
    hide AppliedPins, Canonical, ProjectUrl, Entries;
    FirstEntryAt(Entries(lock), Canonical(ProjectUrl(ws.dependencies[i])), k);
  }

  lemma FirstEntryAt(entries: seq<LockEntry>, key: Option<string>, k: int)
    requires 0 <= k <= |entries| && (k < |entries| ==> Canonical(entries[k].url) == key)
    requires forall j | 0 <= j < k :: Canonical(entries[j].url) != key
    ensures FirstEntry(entries, key) == if k < |entries| then Some(entries[k]) else None
  {
    hide Canonical;
    var urls := CanonicalUrls(entries);
    assert urls == urls[..k] + urls[k..];
    FirstPositionConcat(urls[..k], urls[k..], key);
  }

  /** What becomes of the developing project. Only a remote one is touched: it is pinned by its entry unless the user is a
      developer; else it needs a commit or branch of its own, or a URL that counts as pinned, which for a developer it
      never does. */
  lemma DevelopingAfterSync(lock: Lock, developer: bool, ws: Workspace, version: string, update: bool)
    ensures var l, after := ws.developing, Synced(lock, developer, ws, version, update).developing;
      var remote := l.repo.present && l.repo.linkType != LocalFilesystem;
      var pinned := ProjectUrl(l) in AppliedPins(lock, developer, ws);
      if remote && lock.developing.Some? && !developer
      then SyncedLink(l, lock.developing, version, update && !pinned, after)
      else if remote && (l.commitExplicit || l.branchExplicit || (!developer && pinned))
      then SyncedLink(l, None, version, update && !pinned, after)
      else after == l
  {
    hide AppliedPins, Canonical, AppliedDependencies, CheckedOutEach;
  }

  /** Exactly the checks whose repository is elsewhere, or nowhere, are reported, with the pin and what was found. */
  lemma {:induction false} IssuesExactlyWhen(checks: seq<Check>, x: Issue)
    ensures x in Issues(checks) <==> exists i :: 0 <= i < |checks| && Complains(checks[i].0, checks[i].1, x)
  {
    hide CheckIssues, Complains;
    if checks != [] {
      var n := |checks| - 1;
      IssuesExactlyWhen(checks[..n], x);
      ComplainsExactlyWhen(checks[n], x);
      ConcatMembers(Issues(checks[..n]), CheckIssues(checks[n]), x);
      if i :| 0 <= i < |checks| && Complains(checks[i].0, checks[i].1, x) && i < n {
        assert checks[..n][i] == checks[i];
      }
      if i :| 0 <= i < n && Complains(checks[..n][i].0, checks[..n][i].1, x) {
        assert checks[i] == checks[..n][i];
      }
    }
  }

  lemma ComplainsExactlyWhen(check: Check, x: Issue)
    ensures x in CheckIssues(check) <==> Complains(check.0, check.1, x)
  {
  }

  /** A link is not at the entry's commit, or it cannot be said where it is. */
  predicate Complains(l: LinkState, e: LockEntry, x: Issue) {
    match x
    case CannotVerify(url) => url == e.url && !l.repo.isRepo && e.kind == Git && l.repo.linkType != LocalFilesystem
    case Drift(url, pinned, found) =>
      && url == e.url && pinned == e.commit && found != e.commit
      && (if l.repo.isRepo then found == l.head
          else found == l.repo.snapshot && (e.kind == File || l.repo.linkType == LocalFilesystem))
    case _ => false
  }

  /** A seed is reported as missing exactly when no entry means its repository. */
  lemma SeedMissingExactlyWhen(lock: Lock, seeds: seq<string>, url: string)
    ensures SeedMissing(url) in SeedIssues(lock, seeds) <==>
      url in seeds && forall k | 0 <= k < |Entries(lock)| :: Canonical(Entries(lock)[k].url) != Canonical(url)
  {
    hide Canonical, Entries;
    var urls, key := CanonicalUrls(Entries(lock)), Canonical(url);
    SeedMissingMembers(lock, seeds, url);
    FirstPositionFinds(urls, key);
    if key !in urls {
      forall k | 0 <= k < |Entries(lock)| ensures Canonical(Entries(lock)[k].url) != key {
        assert urls[k] in urls;
      }
    }
  }

  lemma {:induction false} SeedMissingMembers(lock: Lock, seeds: seq<string>, url: string)
    ensures SeedMissing(url) in SeedIssues(lock, seeds) <==> url in seeds && EntryFor(lock, url).None?
  {
    hide EntryFor;
    if seeds != [] {
      var init, last := seeds[..|seeds| - 1], seeds[|seeds| - 1];
      SeedMissingMembers(lock, init, url);
      assert seeds == init + [last];
      ConcatMembers(SeedIssues(lock, init), if EntryFor(lock, last).None? then [SeedMissing(last)] else [], SeedMissing(url));
    }
  }

  /** The developing entry is stale exactly when the user is no developer and the project is missing, local or another
      repository. */
  lemma DevelopingStaleExactlyWhen(lock: Lock, developer: bool, l: LinkState, x: Issue)
    ensures x in DevelopingIssues(lock, developer, l) <==>
      && lock.developing.Some? && !developer && x == StaleDeveloping(lock.developing.value.url)
      && (!l.repo.present || l.repo.linkType == LocalFilesystem || ProjectUrl(l) != Key(lock.developing.value))
  {
    hide ProjectUrl, Key;
  }

  /** What a pin needs to survive verification: in a clone, that it is a full commit name; in a tree outside git's
      control, that the tree is already there. */
  predicate PinHolds(check: Check) {
    var (l, e) := check;
    if l.repo.isRepo then
      if l.repo.linkType == LocalFilesystem then l.head == e.commit else FullCommit(e.commit)
    else
      (e.kind == File || l.repo.linkType == LocalFilesystem) && l.repo.snapshot == e.commit
  }

  ghost predicate AllHold(checks: seq<Check>) {
    forall i | 0 <= i < |checks| :: PinHolds(checks[i])
  }

  function SyncedCheck(check: Check): Check {
    (MovedTo(Pinned(check.0, check.1), check.1.commit), check.1)
  }

  /** A pinned and checked-out repository is at its pin exactly when the pin holds. */
  lemma AtPinExactlyWhen(check: Check)
    requires Faithful(check.0.repo)
    ensures AtPin(SyncedCheck(check)) <==> PinHolds(check)
  {
    var (l, e) := check;
    if l.repo.isRepo && l.repo.linkType != LocalFilesystem {
      assert FullCommit(l.repo.resolve(e.commit));
    }
  }

  lemma FirstEntryFinds(entries: seq<LockEntry>, i: nat, key: Option<string>)
    requires Identified(entries) && i < |entries| && Canonical(entries[i].url) == key
    ensures FirstEntry(entries, key) == Some(entries[i])
  {
    assert CanonicalUrls(entries)[i] == key;
    FirstPositionFinds(CanonicalUrls(entries), key);
    SameKeySameIndex(entries, i, FirstPosition(CanonicalUrls(entries), key));
  }

  lemma FirstEntryIsEntry(entries: seq<LockEntry>, key: Option<string>)
    ensures FirstEntry(entries, key).Some? ==>
      FirstEntry(entries, key).value in entries && Canonical(FirstEntry(entries, key).value.url) == key
  {
    FirstPositionIsFirst(CanonicalUrls(entries), key);
  }

  /** The canonical form of the project's URL is final, so that looking it up again finds the same repository. */
  predicate StableLink(l: LinkState) {
    StableUrl(l.repo.url)
  }

  lemma StableLinkFixed(l: LinkState)
    requires StableLink(l)
    ensures Usable(l) && Canonical(ProjectUrl(l)) == Some(ProjectUrl(l))
  {
    CanonicalTwice(l.repo.url);
  }

  lemma FixedExactlyWhenStable(l: LinkState)
    requires Usable(l)
    ensures Canonical(ProjectUrl(l)) == Some(ProjectUrl(l)) <==> StableLink(l)
  {
    CanonicalTwice(l.repo.url);
  }

  /** Every link that verification looks at behaves like git; the locked repositories are pairwise distinct. */
  ghost predicate SyncReady(lock: Lock, developer: bool, ws: Workspace) {
    && Identified(Entries(lock))
    && Faithful(ws.platform.repo)
    && (AppliesDeveloping(lock, developer, ws.developing) ==> Faithful(ws.developing.repo))
    && (forall i | 0 <= i < |ws.dependencies| :: Usable(ws.dependencies[i]) && Faithful(ws.dependencies[i].repo))
  }

  /** A dependency after the sync. */
  function AfterSync(lock: Lock, developer: bool, ws: Workspace, version: string, update: bool, l: LinkState): (r: LinkState)
    ensures r.repo == l.repo
  {
    CheckedOutUnpinned(AppliedDependency(lock, l), AppliedPins(lock, developer, ws), version, update)
  }

  /** The ref a link is moved to when the entry `x`, if any, is applied to it: its pin, else the link's own commit, else
      its branch, else the version. */
  function RefAfter(l: LinkState, x: Option<LockEntry>, version: string): string {
    if x.Some? then x.value.commit else if l.commitExplicit then l.commit else if l.branchExplicit then l.branch else version
  }

  /** Where a clone ends up. File clones are not moved; what is neither pinned nor explicit is updated on request. */
  function HeadAfter(lock: Lock, developer: bool, ws: Workspace, version: string, update: bool, l: LinkState): string {
    var x := EntryFor(lock, ProjectUrl(l));
    var h := if l.repo.linkType == LocalFilesystem then l.head else l.repo.resolve(RefAfter(l, x, version));
    if update && x.None? && !l.commitExplicit && ProjectUrl(l) !in AppliedPins(lock, developer, ws) then l.repo.pull(h) else h
  }

  /** A compared dependency passes: with a stable URL its pin has to hold. With another URL the entry it is compared
      with is not the one that is applied, if one is; a clone then has to end up at the compared pin on other grounds,
      and a tree has to be there already. */
  predicate Survives(lock: Lock, developer: bool, ws: Workspace, version: string, update: bool, check: Check) {
    var (l, e) := check;
    if StableLink(l) || !l.repo.isRepo then PinHolds(check)
    else HeadAfter(lock, developer, ws, version, update, l) == e.commit
  }

  lemma UnstableSurvives(lock: Lock, developer: bool, ws: Workspace, version: string, update: bool, check: Check)
    requires !StableLink(check.0)
    ensures Survives(lock, developer, ws, version, update, check) <==>
      AtPin((AfterSync(lock, developer, ws, version, update, check.0), check.1))
  {
    hide Canonical, AppliedPins, EntryFor, StableUrl;
  }

  /** With an unstable URL, a remote clone that an entry with a full commit is applied to passes exactly when the entry
      it is compared with has the same commit. */
  lemma AppliedElsewhereSurvives(lock: Lock, developer: bool, ws: Workspace, version: string, update: bool, check: Check)
    requires !StableLink(check.0) && Faithful(check.0.repo)
    requires check.0.repo.isRepo && check.0.repo.linkType != LocalFilesystem
    requires EntryFor(lock, ProjectUrl(check.0)).Some? && FullCommit(EntryFor(lock, ProjectUrl(check.0)).value.commit)
    ensures Survives(lock, developer, ws, version, update, check) <==>
      EntryFor(lock, ProjectUrl(check.0)).value.commit == check.1.commit
  {
    hide Canonical, AppliedPins, EntryFor, StableUrl;
  }

  ghost predicate AllSurvive(lock: Lock, developer: bool, ws: Workspace, version: string, update: bool, checks: seq<Check>) {
    forall i | 0 <= i < |checks| :: Survives(lock, developer, ws, version, update, checks[i])
  }

  /** What verification after the sync depends on. */
  ghost predicate PinsSurvive(lock: Lock, developer: bool, ws: Workspace, version: string, update: bool) {
    && AllHold(OwnChecks(lock, developer, ws))
    && AllSurvive(lock, developer, ws, version, update, DependencyChecks(lock.dependencies, ws.dependencies))
  }

  lemma SyncedUrls(lock: Lock, developer: bool, ws: Workspace, version: string, update: bool)
    ensures Urls(Synced(lock, developer, ws, version, update).dependencies) == Urls(ws.dependencies)
  {
    hide Canonical;
    var after := Synced(lock, developer, ws, version, update).dependencies;
    forall i | 0 <= i < |ws.dependencies| ensures ProjectUrl(after[i]) == ProjectUrl(ws.dependencies[i]) {
      assert after[i].repo == ws.dependencies[i].repo;
    }
  }

  lemma DependencyEntryFor(lock: Lock, k: nat, key: Option<string>)
    requires Identified(Entries(lock)) && k < |lock.dependencies| && Canonical(lock.dependencies[k].url) == key
    ensures FirstEntry(Entries(lock), key) == Some(lock.dependencies[k])
  {
    hide Canonical, Identified, FirstEntry;
    DependencyAt(lock, k);
    FirstEntryFinds(Entries(lock), |Entries(lock)| - |lock.dependencies| + k, key);
  }

  lemma DependencyIsPinned(lock: Lock, l: LinkState, d: nat)
    requires Identified(Entries(lock)) && StableLink(l) && d < |lock.dependencies| && Key(lock.dependencies[d]) == ProjectUrl(l)
    ensures AppliedDependency(lock, l) == Pinned(l, lock.dependencies[d])
  {
    StableLinkFixed(l);
    DependencyAt(lock, d);
    assert Canonical(lock.dependencies[d].url).Some?;
    DependencyEntryFor(lock, d, Canonical(ProjectUrl(l)));
  }

  lemma OneAtPin(check: Check)
    ensures AllAtPin([check]) <==> AtPin(check)
  {
    assert [check][0] == check;
  }

  lemma OneSurvives(lock: Lock, developer: bool, ws: Workspace, version: string, update: bool, check: Check)
    ensures AllSurvive(lock, developer, ws, version, update, [check]) <==> Survives(lock, developer, ws, version, update, check)
  {
    hide Survives;
    assert [check][0] == check;
  }

  lemma SyncedDependencyCheck(lock: Lock, developer: bool, ws: Workspace, version: string, update: bool, d: nat)
    requires SyncReady(lock, developer, ws) && d < |lock.dependencies|
    ensures AllAtPin(DependencyCheck(lock.dependencies[d], Synced(lock, developer, ws, version, update).dependencies)) <==>
      AllSurvive(lock, developer, ws, version, update, DependencyCheck(lock.dependencies[d], ws.dependencies))
  {
    hide Canonical, Faithful, CheckedOutUnpinned, AppliedDependency, StableLink, Identified, ProjectUrl, AtPin, PinHolds, HeadAfter;
    var e := lock.dependencies[d];
    var i := FirstPosition(Urls(ws.dependencies), Key(e));
    SyncedUrls(lock, developer, ws, version, update);
    if i < |ws.dependencies| {
      var l := ws.dependencies[i];
      var synced := AfterSync(lock, developer, ws, version, update, l);
      FirstPositionIsFirst(Urls(ws.dependencies), Key(e));
      assert Synced(lock, developer, ws, version, update).dependencies[i] == synced;
      if StableLink(l) {
        DependencyIsPinned(lock, l, d);
        assert (synced, e) == SyncedCheck((l, e));
        AtPinExactlyWhen((l, e));
      } else {
        UnstableSurvives(lock, developer, ws, version, update, (l, e));
      }
      assert DependencyCheck(e, ws.dependencies) == [(l, e)];
      assert DependencyCheck(e, Synced(lock, developer, ws, version, update).dependencies) == [(synced, e)];
      OneAtPin((synced, e));
      OneSurvives(lock, developer, ws, version, update, (l, e));
    }
  }

  lemma AllAtPinConcat(a: seq<Check>, b: seq<Check>)
    ensures AllAtPin(a + b) <==> AllAtPin(a) && AllAtPin(b)
  {
    hide AtPin;
    if AllAtPin(a + b) {
      forall i | 0 <= i < |a| ensures AtPin(a[i]) {
        assert (a + b)[i] == a[i];
      }
      forall i | 0 <= i < |b| ensures AtPin(b[i]) {
        assert (a + b)[|a| + i] == b[i];
      }
    }
  }

  lemma AllSurviveConcat(lock: Lock, developer: bool, ws: Workspace, version: string, update: bool, a: seq<Check>, b: seq<Check>)
    ensures AllSurvive(lock, developer, ws, version, update, a + b) <==>
      AllSurvive(lock, developer, ws, version, update, a) && AllSurvive(lock, developer, ws, version, update, b)
  {
    hide Survives;
    if AllSurvive(lock, developer, ws, version, update, a + b) {
      forall i | 0 <= i < |a| ensures Survives(lock, developer, ws, version, update, a[i]) {
        assert (a + b)[i] == a[i];
      }
      forall i | 0 <= i < |b| ensures Survives(lock, developer, ws, version, update, b[i]) {
        assert (a + b)[|a| + i] == b[i];
      }
    }
  }

  lemma {:induction false} SyncedDependencyChecks(lock: Lock, developer: bool, ws: Workspace, version: string, update: bool, d: nat)
    requires SyncReady(lock, developer, ws) && d <= |lock.dependencies|
    ensures AllAtPin(DependencyChecks(lock.dependencies[..d], Synced(lock, developer, ws, version, update).dependencies)) <==>
      AllSurvive(lock, developer, ws, version, update, DependencyChecks(lock.dependencies[..d], ws.dependencies))
  {
    hide Synced, SyncReady, DependencyCheck, Survives, AtPin;
    if d > 0 {
      var e, after := lock.dependencies[d - 1], Synced(lock, developer, ws, version, update).dependencies;
      assert lock.dependencies[..d][..d - 1] == lock.dependencies[..d - 1];
      SyncedDependencyChecks(lock, developer, ws, version, update, d - 1);
      SyncedDependencyCheck(lock, developer, ws, version, update, d - 1);
      AllAtPinConcat(DependencyChecks(lock.dependencies[..d - 1], after), DependencyCheck(e, after));
      AllSurviveConcat(lock, developer, ws, version, update,
                       DependencyChecks(lock.dependencies[..d - 1], ws.dependencies), DependencyCheck(e, ws.dependencies));
    }
  }

  lemma SyncedOwnChecks(lock: Lock, developer: bool, ws: Workspace, version: string, update: bool)
    requires SyncReady(lock, developer, ws)
    ensures AllAtPin(OwnChecks(lock, developer, Synced(lock, developer, ws, version, update))) <==> AllHold(OwnChecks(lock, developer, ws))
  {
    hide Canonical, Faithful, CheckedOutUnpinned, AppliedDependencies, AtPin, PinHolds;
    var before, after := OwnChecks(lock, developer, ws), OwnChecks(lock, developer, Synced(lock, developer, ws, version, update));
    assert |before| == |after|;
    forall i | 0 <= i < |before| ensures AtPin(after[i]) <==> PinHolds(before[i]) {
      assert after[i] == SyncedCheck(before[i]);
      AtPinExactlyWhen(before[i]);
    }
  }

  /** Load, apply, check out, verify: for any distinct locked repositories, no drift is reported if and only if every
      pin that verification compares survives, whatever the links' own pins were. */
  lemma VerifiesExactlyWhen(lock: Lock, developer: bool, ws: Workspace, version: string, update: bool)
    requires SyncReady(lock, developer, ws)
    ensures Issues(Checks(lock, developer, Synced(lock, developer, ws, version, update))) == [] <==>
      PinsSurvive(lock, developer, ws, version, update)
  {
    hide Canonical, Synced, SyncReady, OwnChecks, DependencyChecks, AllAtPin, AllHold, AllSurvive;
    var after := Synced(lock, developer, ws, version, update);
    assert lock.dependencies[..|lock.dependencies|] == lock.dependencies;
    NoIssuesExactlyWhen(Checks(lock, developer, after));
    AllAtPinConcat(OwnChecks(lock, developer, after), DependencyChecks(lock.dependencies, after.dependencies));
    SyncedOwnChecks(lock, developer, ws, version, update);
    SyncedDependencyChecks(lock, developer, ws, version, update, |lock.dependencies|);
  }

  /** Where the compared dependencies have stable URLs: if and only if every compared pin holds, whether or not
      updating was requested. */
  lemma VerifiesExactlyWhenPinsHold(lock: Lock, developer: bool, ws: Workspace, version: string, update: bool)
    requires SyncReady(lock, developer, ws)
    requires forall c | c in DependencyChecks(lock.dependencies, ws.dependencies) :: StableLink(c.0)
    ensures Issues(Checks(lock, developer, Synced(lock, developer, ws, version, update))) == [] <==>
      AllHold(Checks(lock, developer, ws))
  {
    hide Canonical, Synced, SyncReady, OwnChecks, DependencyChecks, PinHolds, StableLink, Issues;
    var own, compared := OwnChecks(lock, developer, ws), DependencyChecks(lock.dependencies, ws.dependencies);
    VerifiesExactlyWhen(lock, developer, ws, version, update);
    assert AllSurvive(lock, developer, ws, version, update, compared) <==> AllHold(compared);
    AllHoldConcat(own, compared);
  }

  lemma AllHoldConcat(a: seq<Check>, b: seq<Check>)
    ensures AllHold(a + b) <==> AllHold(a) && AllHold(b)
  {
    hide PinHolds;
    if AllHold(a + b) {
      forall i | 0 <= i < |a| ensures PinHolds(a[i]) {
        assert (a + b)[i] == a[i];
      }
      forall i | 0 <= i < |b| ensures PinHolds(b[i]) {
        assert (a + b)[|a| + i] == b[i];
      }
    }
  }

  // ---- Which repositories count as pinned ---------------------------------------------------------------------------

  /** The entry was applied to some link. */
  ghost predicate WasApplied(lock: Lock, developer: bool, ws: Workspace, e: LockEntry) {
    || lock.platform == Some(e)
    || (AppliesDeveloping(lock, developer, ws.developing) && lock.developing == Some(e))
    || exists i :: 0 <= i < |ws.dependencies| && EntryFor(lock, ProjectUrl(ws.dependencies[i])) == Some(e)
  }

  lemma AppliedIsPinned(lock: Lock, developer: bool, ws: Workspace, e: LockEntry)
    requires WasApplied(lock, developer, ws, e)
    ensures Key(e) in AppliedPins(lock, developer, ws)
  {
    hide Canonical, Key;
    if i :| 0 <= i < |ws.dependencies| && EntryFor(lock, ProjectUrl(ws.dependencies[i])) == Some(e) {
      assert PinsOf(lock, ws.dependencies)[i] == Some(Key(e));
    }
  }

  /** Every recorded pin is the key of an entry that was applied. */
  lemma PinWasApplied(lock: Lock, developer: bool, ws: Workspace, url: string) returns (e: LockEntry)
    requires url in AppliedPins(lock, developer, ws)
    ensures WasApplied(lock, developer, ws, e) && Key(e) == url && e in Entries(lock)
  {
    hide Canonical, Key;
    if url in DependencyPins(lock, ws.dependencies) {
      var i :| 0 <= i < |ws.dependencies| && PinsOf(lock, ws.dependencies)[i] == Some(url);
      e := EntryFor(lock, ProjectUrl(ws.dependencies[i])).value;
      FirstEntryIsEntry(Entries(lock), Canonical(ProjectUrl(ws.dependencies[i])));
    } else {
      e := if lock.platform.Some? && url == Key(lock.platform.value) then lock.platform.value else lock.developing.value;
      EntriesMembers(lock, e);
    }
  }

  ghost predicate KeyApplied(lock: Lock, developer: bool, ws: Workspace, url: string) {
    exists e :: WasApplied(lock, developer, ws, e) && Key(e) == url
  }

  lemma PinnedExactlyWhenKeyApplied(lock: Lock, developer: bool, ws: Workspace, url: string)
    ensures url in AppliedPins(lock, developer, ws) <==> KeyApplied(lock, developer, ws, url)
  {
    hide WasApplied, AppliedPins;
    if url in AppliedPins(lock, developer, ws) {
      var e := PinWasApplied(lock, developer, ws, url);
    }
    if e :| WasApplied(lock, developer, ws, e) && Key(e) == url {
      AppliedIsPinned(lock, developer, ws, e);
    }
  }

  /** A dependency with a stable URL counts as pinned exactly when an entry was applied to it; any other one exactly
      when its URL happens to be the key of an entry applied elsewhere. */
  lemma DependencyPinnedExactlyWhen(lock: Lock, developer: bool, ws: Workspace, i: nat)
    requires Identified(Entries(lock)) && i < |ws.dependencies| && Usable(ws.dependencies[i])
    ensures var l := ws.dependencies[i];
      ProjectUrl(l) in AppliedPins(lock, developer, ws) <==>
        if StableLink(l) then EntryFor(lock, ProjectUrl(l)).Some?
        else exists e :: WasApplied(lock, developer, ws, e) && Key(e) == ProjectUrl(l) && EntryFor(lock, ProjectUrl(l)) != Some(e)
  {
    hide AppliedPins, WasApplied, FirstEntry;
    var l := ws.dependencies[i];
    var url := ProjectUrl(l);
    FixedExactlyWhenStable(l);
    FirstEntryIsEntry(Entries(lock), Canonical(url));
    if url in AppliedPins(lock, developer, ws) {
      var e := PinWasApplied(lock, developer, ws, url);
      var k :| 0 <= k < |Entries(lock)| && Entries(lock)[k] == e;
      if StableLink(l) {
        FirstEntryFinds(Entries(lock), k, Canonical(url));
      }
    } else if EntryFor(lock, url).Some? && StableLink(l) {
      AppliedHere(lock, developer, ws, i);
    }
    if e :| WasApplied(lock, developer, ws, e) && Key(e) == url {
      AppliedIsPinned(lock, developer, ws, e);
    }
  }

  lemma AppliedHere(lock: Lock, developer: bool, ws: Workspace, i: nat)
    requires i < |ws.dependencies| && EntryFor(lock, ProjectUrl(ws.dependencies[i])).Some?
    ensures Key(EntryFor(lock, ProjectUrl(ws.dependencies[i])).value) in AppliedPins(lock, developer, ws)
  {
    hide Canonical, FirstEntry, Key;
    AppliedIsPinned(lock, developer, ws, EntryFor(lock, ProjectUrl(ws.dependencies[i])).value);
  }

  // ---- A dependency and its own entry ----------------------------------------------------------------------------------

  lemma {:induction false} ComparedMembers(entries: seq<LockEntry>, links: seq<LinkState>, c: Check)
    ensures c in DependencyChecks(entries, links) <==>
      exists d :: 0 <= d < |entries| && c in DependencyCheck(entries[d], links)
  {
    hide DependencyCheck;
    if entries != [] {
      var init := entries[..|entries| - 1];
      ComparedMembers(init, links, c);
      ConcatMembers(DependencyChecks(init, links), DependencyCheck(entries[|entries| - 1], links), c);
      if d :| 0 <= d < |init| && c in DependencyCheck(init[d], links) {
        assert entries[d] == init[d];
      }
      if d :| 0 <= d < |entries| && c in DependencyCheck(entries[d], links) && d < |init| {
        assert init[d] == entries[d];
      }
    }
  }

  /** A compared dependency has the URL of the entry it is compared with. */
  lemma ComparedByUrl(entries: seq<LockEntry>, links: seq<LinkState>, c: Check)
    requires c in DependencyChecks(entries, links)
    ensures c.0 in links && c.1 in entries && ProjectUrl(c.0) == Key(c.1)
  {
    hide ProjectUrl, Key;
    ComparedMembers(entries, links, c);
    var d :| 0 <= d < |entries| && c in DependencyCheck(entries[d], links);
    FirstPositionIsFirst(Urls(links), Key(entries[d]));
  }

  /** It is the first one with that URL. */
  lemma ComparedIsFirst(entries: seq<LockEntry>, links: seq<LinkState>, c: Check)
    ensures c in DependencyChecks(entries, links) <==> c.1 in entries && FirstWithUrl(links, Key(c.1)) == Some(c.0)
  {
    hide FirstWithUrl, Key;
    ComparedMembers(entries, links, c);
    if c.1 in entries && FirstWithUrl(links, Key(c.1)) == Some(c.0) {
      var d :| 0 <= d < |entries| && entries[d] == c.1;
      assert c in DependencyCheck(entries[d], links);
    }
  }

  lemma DependencyCompared(entries: seq<LockEntry>, links: seq<LinkState>, d: nat, i: nat)
    requires d < |entries| && i < |links| && NoDuplicates(Urls(links)) && ProjectUrl(links[i]) == Key(entries[d])
    ensures (links[i], entries[d]) in DependencyChecks(entries, links)
  {
    hide ProjectUrl, Key;
    assert Urls(links)[i] == Key(entries[d]);
    FirstPositionFinds(Urls(links), Key(entries[d]));
    assert (links[i], entries[d]) in DependencyCheck(entries[d], links);
    ComparedMembers(entries, links, (links[i], entries[d]));
  }

  lemma {:induction false} StaleMembers(entries: seq<LockEntry>, urls: seq<string>, url: string)
    ensures StaleDependency(url) in StaleIssues(entries, urls) <==>
      exists d :: 0 <= d < |entries| && entries[d].url == url && Key(entries[d]) !in urls
  {
    hide Canonical, Key;
    if entries != [] {
      var init := entries[..|entries| - 1];
      StaleMembers(init, urls, url);
      if d :| 0 <= d < |init| && init[d].url == url && Key(init[d]) !in urls {
        assert entries[d] == init[d];
      }
      if d :| 0 <= d < |entries| && entries[d].url == url && Key(entries[d]) !in urls && d < |init| {
        assert init[d] == entries[d];
      }
    }
  }

  /** An entry is reported as stale exactly when no dependency has its key for a URL. */
  lemma StaleExactlyWhen(entries: seq<LockEntry>, urls: seq<string>, d: nat)
    requires d < |entries|
    ensures StaleDependency(entries[d].url) in StaleIssues(entries, urls) <==> Key(entries[d]) !in urls
  {
    StaleMembers(entries, urls, entries[d].url);
  }

  lemma OwnNotCompared(lock: Lock, developer: bool, ws: Workspace, d: nat, l: LinkState)
    requires Identified(Entries(lock)) && d < |lock.dependencies|
    ensures (l, lock.dependencies[d]) !in OwnChecks(lock, developer, ws)
  {
    hide Canonical;
    var e := lock.dependencies[d];
    DependencyAt(lock, d);
    if (l, e) in OwnChecks(lock, developer, ws) {
      var at := if lock.platform == Some(e) then 0 else |OptSeq(lock.platform)|;
      assert Entries(lock)[at] == e;
      SameKeySameIndex(Entries(lock), at, |Entries(lock)| - |lock.dependencies| + d);
    }
  }

  /** Another entry that was applied is keyed by the URL. */
  ghost predicate KeyAppliedElsewhere(lock: Lock, developer: bool, ws: Workspace, url: string, e: LockEntry) {
    exists x :: WasApplied(lock, developer, ws, x) && Key(x) == url && x != e
  }

  /** A dependency whose repository is locked gets its entry applied, whatever its URL. It counts as pinned if and only if
      the URL is stable or happens to be the key of another entry that was applied; it is compared with its entry if and
      only if the URL is stable and it is the first dependency with that URL; and the entry is reported as stale if and
      only if the URL is not stable and no dependency goes by its key. */
  lemma LockedDependencyExactlyWhen(lock: Lock, developer: bool, ws: Workspace, i: nat, d: nat)
    requires Identified(Entries(lock)) && i < |ws.dependencies| && d < |lock.dependencies| && Usable(ws.dependencies[i])
    requires Canonical(ProjectUrl(ws.dependencies[i])) == Some(Key(lock.dependencies[d]))
    ensures var l, e := ws.dependencies[i], lock.dependencies[d];
      && AppliedDependency(lock, l) == Pinned(l, e)
      && (ProjectUrl(l) in AppliedPins(lock, developer, ws) <==>
            StableLink(l) || KeyAppliedElsewhere(lock, developer, ws, ProjectUrl(l), e))
      && ((l, e) in Checks(lock, developer, ws) <==>
            StableLink(l) && FirstWithUrl(ws.dependencies, ProjectUrl(l)) == Some(l))
      && (StaleDependency(e.url) in StaleIssues(lock.dependencies, Urls(ws.dependencies)) <==>
            !StableLink(l) && Key(e) !in Urls(ws.dependencies))
  {
    hide AppliedPins, WasApplied, FirstEntry, Checks, FirstWithUrl;
    var l, e := ws.dependencies[i], lock.dependencies[d];
    LockedEntryApplied(lock, l, d);
    DependencyPinnedExactlyWhen(lock, developer, ws, i);
    LockedDependencyCompared(lock, developer, ws, i, d);
    StaleExactlyWhen(lock.dependencies, Urls(ws.dependencies), d);
    FixedExactlyWhenStable(l);
    assert Urls(ws.dependencies)[i] == ProjectUrl(l);
  }

  lemma LockedEntryApplied(lock: Lock, l: LinkState, d: nat)
    requires Identified(Entries(lock)) && d < |lock.dependencies| && Canonical(ProjectUrl(l)) == Some(Key(lock.dependencies[d]))
    ensures EntryFor(lock, ProjectUrl(l)) == Some(lock.dependencies[d])
  {
    DependencyAt(lock, d);
    assert Canonical(lock.dependencies[d].url).Some?;
    DependencyEntryFor(lock, d, Canonical(ProjectUrl(l)));
  }

  lemma LockedDependencyCompared(lock: Lock, developer: bool, ws: Workspace, i: nat, d: nat)
    requires Identified(Entries(lock)) && i < |ws.dependencies| && d < |lock.dependencies| && Usable(ws.dependencies[i])
    requires Canonical(ProjectUrl(ws.dependencies[i])) == Some(Key(lock.dependencies[d]))
    ensures var l, e := ws.dependencies[i], lock.dependencies[d];
      (l, e) in Checks(lock, developer, ws) <==> StableLink(l) && FirstWithUrl(ws.dependencies, ProjectUrl(l)) == Some(l)
  {
    hide OwnChecks, DependencyChecks, FirstWithUrl;
    var l, e := ws.dependencies[i], lock.dependencies[d];
    FixedExactlyWhenStable(l);
    OwnNotCompared(lock, developer, ws, d, l);
    ConcatMembers(OwnChecks(lock, developer, ws), DependencyChecks(lock.dependencies, ws.dependencies), (l, e));
    ComparedIsFirst(lock.dependencies, ws.dependencies, (l, e));
    if (l, e) in DependencyChecks(lock.dependencies, ws.dependencies) {
      ComparedByUrl(lock.dependencies, ws.dependencies, (l, e));
    }
  }

  /** Such URLs exist: for the lock that update-lock collects from `https://h/p.git?q`, the entry is applied, and the
      dependency neither counts as pinned nor is compared, and its entry is stale. */
  lemma UnstableDependencyEscapes(l: LinkState, e: LockEntry, platform: LockEntry, developing: LinkState, own: LinkState)
    requires l.repo.url == "https://h/p.git?q" && e.url == ProjectUrl(l) && e.commit != ""
    requires platform.url == "https://h/o" && platform.commit != ""
    ensures var lock, ws := Lock(Some(platform), None, [e]), Workspace(own, developing, [l]);
      && Identified(Entries(lock)) && AppliedDependency(lock, l) == Pinned(l, e)
      && ProjectUrl(l) !in AppliedPins(lock, false, ws) && (l, e) !in Checks(lock, false, ws)
      && StaleDependency(e.url) in StaleIssues(lock.dependencies, Urls(ws.dependencies))
  {
    hide Canonical, StableUrl, AppliedPins, Checks, StaleIssues, AppliedDependency, EntryFor;
    var lock, ws := Lock(Some(platform), None, [e]), Workspace(own, developing, [l]);
    UnstableExample();
    OtherExample();
    ExampleKeysDiffer();
    assert Entries(lock) == [platform, e];
    assert Keys(Entries(lock)) == ["https://h/o", "https://h/p"];
    assert Urls(ws.dependencies) == ["https://h/p.git"];
    LockedDependencyExactlyWhen(lock, false, ws, 0, 0);
    if KeyAppliedElsewhere(lock, false, ws, ProjectUrl(l), e) {
      PinnedExactlyWhenKeyApplied(lock, false, ws, ProjectUrl(l));
      var x := PinWasApplied(lock, false, ws, ProjectUrl(l));
    }
  }

  lemma ExampleKeysDiffer()
    ensures "https://h/p" != "https://h/o" && "https://h/p" != "https://h/p.git" && "https://h/p.git" != "https://h/o"
  {
    assert |"https://h/p"| == 11 && |"https://h/o"| == 11 && |"https://h/p.git"| == 15;
    assert "https://h/p"[10] != "https://h/o"[10];
  }

  /** Distinct repositories and full commits do not rule out drift: with entries written as `https://h/p.git?q`
      and `https://h/p.git`, a dependency at the former URL is moved to the commit of the latter and compared with its
      own. */
  lemma UnstableDependencyDrifts(l: LinkState, e: LockEntry, x: LockEntry, platform: LockEntry, developing: LinkState,
                                 own: LinkState, version: string, update: bool)
    requires l.repo.url == e.url == "https://h/p.git?q" && x.url == "https://h/p.git" && platform.url == "https://h/o"
    requires FullCommit(e.commit) && FullCommit(x.commit) && FullCommit(platform.commit) && e.commit != x.commit
    requires Faithful(l.repo) && l.repo.isRepo && l.repo.linkType != LocalFilesystem && Faithful(own.repo)
    ensures var lock, ws := Lock(Some(platform), None, [e, x]), Workspace(own, developing, [l]);
      && SyncReady(lock, false, ws) && (l, e) in Checks(lock, false, ws)
      && Synced(lock, false, ws, version, update).dependencies[0].head == x.commit
      && Issues(Checks(lock, false, Synced(lock, false, ws, version, update))) != []
  {
    hide Canonical, StableUrl, AppliedPins, OwnChecks, DependencyChecks, EntryFor, Issues, Survives, Faithful, CheckedOutUnpinned, Key, FirstWithUrl;
    var lock, ws := Lock(Some(platform), None, [e, x]), Workspace(own, developing, [l]);
    var check := (l, e);
    TwoEntriesReady(l, e, x, platform, developing, own);
    LockedEntryApplied(lock, l, 1);
    AppliedElsewhereSurvives(lock, false, ws, version, update, check);
    ConcatMembers(OwnChecks(lock, false, ws), DependencyChecks(lock.dependencies, ws.dependencies), check);
    VerifiesExactlyWhen(lock, false, ws, version, update);
    FaithfulFull(l.repo, x.commit);
  }

  lemma FaithfulFull(repo: Repository, commit: string)
    requires Faithful(repo) && FullCommit(commit)
    ensures repo.resolve(commit) == commit
  {
  }

  lemma TwoEntriesReady(l: LinkState, e: LockEntry, x: LockEntry, platform: LockEntry, developing: LinkState, own: LinkState)
    requires l.repo.url == e.url == "https://h/p.git?q" && x.url == "https://h/p.git" && platform.url == "https://h/o"
    requires e.commit != "" && x.commit != "" && platform.commit != "" && Faithful(l.repo) && Faithful(own.repo)
    ensures var lock, ws := Lock(Some(platform), None, [e, x]), Workspace(own, developing, [l]);
      && SyncReady(lock, false, ws) && !StableLink(l) && Canonical(ProjectUrl(l)) == Some(Key(x))
      && (l, e) in DependencyChecks(lock.dependencies, ws.dependencies)
  {
    hide Canonical, StableUrl, Faithful;
    var lock, ws := Lock(Some(platform), None, [e, x]), Workspace(own, developing, [l]);
    UnstableExample();
    OtherExample();
    ExampleKeysDiffer();
    assert Entries(lock) == [platform, e, x];
    assert Keys(Entries(lock)) == ["https://h/o", "https://h/p.git", "https://h/p"];
    assert Urls(ws.dependencies) == ["https://h/p.git"];
    DependencyCompared(lock.dependencies, ws.dependencies, 0, 0);
  }

  lemma OtherExample()
    ensures Canonical("https://h/o") == Some("https://h/o")
  {
    hide Canonical;
    assert "https://h/o" == HttpsSpelling("h", "o") + Tail(false, 0) == HttpsUrl(Lower("h"), "/" + "o");
    SpellingsAgree("h", "o", false, 0, 0);
  }

  // ---- The platform -----------------------------------------------------------------------------------------------------

  /** The platform's entry is applied whatever repository the platform link names: a clone is moved to its commit. It
      counts as pinned exactly when the link's URL is the entry's key, as long as no other entry that is applied has
      that key; so after a change of the platform's URL it is held at the old commit without counting as pinned. */
  lemma PlatformPinnedExactlyWhen(lock: Lock, developer: bool, ws: Workspace, version: string, update: bool)
    requires lock.platform.Some?
    requires forall e | WasApplied(lock, developer, ws, e) && Key(e) == ProjectUrl(ws.platform) :: lock.platform == Some(e)
    ensures ProjectUrl(ws.platform) in AppliedPins(lock, developer, ws) <==> Key(lock.platform.value) == ProjectUrl(ws.platform)
    ensures var repo, commit := ws.platform.repo, lock.platform.value.commit;
      Faithful(repo) && repo.isRepo && repo.linkType != LocalFilesystem && FullCommit(commit) ==>
        Synced(lock, developer, ws, version, update).platform.head == commit
  {
    hide Canonical, AppliedPins;
    PinnedExactlyWhenKeyApplied(lock, developer, ws, ProjectUrl(ws.platform));
    assert WasApplied(lock, developer, ws, lock.platform.value);
  }
}
