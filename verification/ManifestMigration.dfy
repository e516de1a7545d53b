/** From the flat manifest v1 to the nested v2, and v2 read back as flat settings
    (manifest/migrator.py, manifest/reader.py). */
module ManifestMigration {
  import opened Results
  import opened Text
  import opened Ordering
  import opened RepoUrl
  import opened DepsLocks

  /** A scalar JSON value; a number is known by its text and by whether it is zero. */
  datatype Value = Null | Text(text: string) | Number(digits: string, zero: bool)

  /** `str(value)` */
  function Str(v: Value): string {
    match v
    case Null => "None"
    case Text(s) => s
    case Number(s, _) => s
  }

  predicate Truthy(v: Value) {
    match v
    case Null => false
    case Text(s) => s != ""
    case Number(_, zero) => !zero
  }

  const ODOO_GIT_LINK := "https://github.com/odoo/odoo.git"
  const LATEST := "latest"
  const DEFAULT_PYTHON := "3.7"
  const DEFAULT_DISTRO := "debian"
  const DEFAULT_DISTRO_VERSION := "11"
  const DEFAULT_POSTGRES := "13"
  const PLATFORM_NAME := "odoo"

  /** The settings of a flat manifest; `None` where a key is absent. */
  datatype Flat = Flat(odooVersion: Option<Value>, python: Option<Value>, distroName: Option<Value>, distroVersion: Option<Value>,
                       postgres: Option<Value>, gitLink: Option<Value>, buildDate: Option<Value>,
                       platformName: Option<Value>, arch: Option<Value>,
                       dependencies: seq<string>, requirements: seq<string>)

  /** A v1 manifest as written: its settings, and what else migration looks at. */
  datatype V1 = V1(isV2: bool, settings: Flat, developing: Option<Value>)

  datatype V2 = V2(git: Option<Value>, buildDate: Option<Value>, python: Option<Value>, distroName: Option<Value>,
                   distroVersion: Option<Value>, postgres: Option<Value>, dependencies: seq<string>, requirements: seq<string>,
                   odooVersion: Option<Value>, platformName: Option<Value>, arch: Option<Value>,
                   developing: Option<string>, locks: Option<GitLocks>)

  datatype MigrationError = AlreadyV2

  function Or(v: Option<Value>, default: string): Value {
    if v.Some? then v.value else Value.Text(default)
  }

  function IfTruthy(v: Option<Value>): Option<Value> {
    if v.Some? && Truthy(v.value) then v else None
  }

  /** A value for which a later reader looks up no replacement. */
  predicate Filled(v: Option<Value>) {
    v.Some? && v.value != Null && v.value != Value.Text("")
  }

  // ---- Migration --------------------------------------------------------------------------------------------

  /** The developing link: the manifest's own, else the one from the user settings. */
  function DevelopingLink(v1: V1, user: Option<Value>): Option<string> {
    var link := if v1.developing.Some? && Truthy(v1.developing.value) then v1.developing else user;
    if link.Some? && Truthy(link.value) && Strip(Str(link.value)) != "" then Some(Strip(Str(link.value))) else None
  }

  function MigratedLocks(lock: Option<Lock>): Option<GitLocks> {
    if lock.Some? && PutAll([], Entries(lock.value)) != [] then Some(PutAll([], Entries(lock.value))) else None
  }

  function Migrated(v1: V1, user: Option<Value>, lock: Option<Lock>): V2 {
    var s := v1.settings;
    V2(Some(Value.Text(Str(Or(s.gitLink, ODOO_GIT_LINK)))),
       if Truthy(Or(s.buildDate, LATEST)) then Some(Value.Text(Str(Or(s.buildDate, LATEST)))) else None,
       Some(Value.Text(Str(Or(s.python, DEFAULT_PYTHON)))),
       Some(Value.Text(Str(Or(s.distroName, DEFAULT_DISTRO)))),
       Some(Value.Text(Str(Or(s.distroVersion, DEFAULT_DISTRO_VERSION)))),
       Some(Value.Text(Str(Or(s.postgres, DEFAULT_POSTGRES)))),
       s.dependencies, s.requirements,
       if Filled(s.odooVersion) then s.odooVersion else None,
       IfTruthy(s.platformName), IfTruthy(s.arch),
       DevelopingLink(v1, user), MigratedLocks(lock))
  }

  /** `migrate_v1_flat_to_v2` */
  method MigrateV1(v1: V1, user: Option<Value>, lock: Option<Lock>) returns (r: Result<V2, MigrationError>)
    ensures r == if v1.isV2 then Err(AlreadyV2) else Ok(Migrated(v1, user, lock))
  {
    hide Strip, PutAll, Entries, Str, Truthy, Or, Filled;
    if v1.isV2 {
      return Err(AlreadyV2);
    }
    var s := v1.settings;
    var v2 := V2(Some(Value.Text(Str(Or(s.gitLink, ODOO_GIT_LINK)))), None,
                 Some(Value.Text(Str(Or(s.python, DEFAULT_PYTHON)))),
                 Some(Value.Text(Str(Or(s.distroName, DEFAULT_DISTRO)))),
                 Some(Value.Text(Str(Or(s.distroVersion, DEFAULT_DISTRO_VERSION)))),
                 Some(Value.Text(Str(Or(s.postgres, DEFAULT_POSTGRES)))),
                 s.dependencies, s.requirements, None, None, None, None, None);
    var buildDate := Or(s.buildDate, LATEST);
    if Truthy(buildDate) {
      v2 := v2.(buildDate := Some(Value.Text(Str(buildDate))));
    }
    if Filled(s.odooVersion) {
      v2 := v2.(odooVersion := s.odooVersion);
    }
    if s.platformName.Some? && Truthy(s.platformName.value) {
      v2 := v2.(platformName := s.platformName);
    }
    if s.arch.Some? && Truthy(s.arch.value) {
      v2 := v2.(arch := s.arch);
    }
    v2 := v2.(developing := DevelopingLink(v1, user));
    if lock.Some? {
      var locks := GitLocksFromLock(lock.value);
      if locks != [] {
        v2 := v2.(locks := Some(locks));
      }
    }
    r := Ok(v2);
  }

  /** The text a setting is written as: its default where it is absent, and `None` where it is null. */
  predicate WrittenAs(given: Option<Value>, default: string, written: Option<Value>) {
    match given
    case None => written == Some(Value.Text(default))
    case Some(Null) => written == Some(Value.Text("None"))
    case Some(Text(s)) => written == Some(Value.Text(s))
    case Some(Number(digits, _)) => written == Some(Value.Text(digits))
  }

  /** Null, the empty string and zero are dropped; anything else is carried over. */
  predicate CarriedOver(given: Option<Value>, written: Option<Value>) {
    match given
    case None => written == None
    case Some(Null) => written == None
    case Some(Text(s)) => written == if s == "" then None else given
    case Some(Number(_, zero)) => written == if zero then None else given
  }

  /** What is written for each setting. */
  lemma MigratedFields(v1: V1, user: Option<Value>, lock: Option<Lock>)
    ensures var s, v2 := v1.settings, Migrated(v1, user, lock);
      && WrittenAs(s.gitLink, "https://github.com/odoo/odoo.git", v2.git) && WrittenAs(s.python, "3.7", v2.python)
      && WrittenAs(s.distroName, "debian", v2.distroName) && WrittenAs(s.distroVersion, "11", v2.distroVersion)
      && WrittenAs(s.postgres, "13", v2.postgres)
      && (if s.buildDate.None? then v2.buildDate == Some(Value.Text("latest"))
          else if CarriedOver(s.buildDate, None) then v2.buildDate == None else WrittenAs(s.buildDate, "", v2.buildDate))
      && CarriedOver(s.platformName, v2.platformName) && CarriedOver(s.arch, v2.arch)
      && v2.odooVersion == (if s.odooVersion == Some(Null) || s.odooVersion == Some(Value.Text("")) then None else s.odooVersion)
  {
    hide DevelopingLink, MigratedLocks;
  }

  /** The manifest's own developing link goes before that of the user settings, unless it is null, empty or zero; of the
      one chosen, what stands between white space is written. */
  lemma DevelopingLinkExactlyWhen(v1: V1, user: Option<Value>, lock: Option<Lock>, pre: string, link: string, post: string)
    requires AllSpace(pre) && AllSpace(post) && IsStripped(link)
    requires var given := Some(Value.Text(pre + link + post));
      (v1.developing == given && pre + link + post != "") || (CarriedOver(v1.developing, None) && user == given)
    ensures Migrated(v1, user, lock).developing == if link == "" then None else Some(link)
  {
    hide MigratedLocks, Strip;
    StripFinds(pre, link, post);
  }

  // ---- Reading v2 as flat settings -----------------------------------------------------------------------------

  lemma {:induction false} TakeWordIsPrefix(s: string)
    ensures TakeWord(s) <= s
    ensures s != "" && !IsSpace(s[0]) ==> TakeWord(s) != ""
  {
    if s != "" && !IsSpace(s[0]) {
      TakeWordIsPrefix(s[1..]);
    }
  }

  lemma {:induction false} StripLeftShorter(s: string)
    ensures |StripLeft(s)| <= |s|
  {
    if s != "" && IsSpace(s[0]) {
      StripLeftShorter(s[1..]);
    }
  }

  /** `s.split()` */
  function Words(s: string): seq<string>
    decreases |s|
  {
    var rest := StripLeft(s);
    StripLeftShorter(s);
    StripLeftStarts(s);
    TakeWordIsPrefix(rest);
    if rest == "" then [] else [TakeWord(rest)] + Words(rest[|TakeWord(rest)|..])
  }

  /** `_ref_from_git_link`: the last word after the URL. */
  function RefFromGitLink(link: string): string {
    var words := Words(link);
    if |words| >= 2 then words[|words| - 1] else ""
  }

  /** The ref is the last word of a link that has more than one. */
  lemma RefIsLastWord(front: string, ref: string, post: string)
    requires front != "" && IsSpace(front[|front| - 1]) && NoSpace(ref) && ref != "" && AllSpace(post)
    ensures RefFromGitLink(front + ref + post) == if AllSpace(front) then "" else ref
  {
    WordsOfSpace(front);
    LastWord(front, ref, post);
  }

  lemma WordsOfSpace(s: string)
    ensures Words(s) == [] <==> AllSpace(s)
  {
    var pre := StripLeftCuts(s);
    StripLeftStarts(s);
    if StripLeft(s) == "" {
      assert s == pre;
    } else {
      assert s[|pre|] == StripLeft(s)[0];
    }
  }

  lemma WordsCons(pre: string, word: string, tail: string)
    requires AllSpace(pre) && NoSpace(word) && word != "" && (tail != "" ==> IsSpace(tail[0]))
    ensures Words(pre + (word + tail)) == [word] + Words(tail)
  {
    StripLeftOff(pre, word + tail);
    TakeWordStops(word, tail);
    assert (word + tail)[|word|..] == tail;
  }

  lemma FirstWord(s: string) returns (pre: string, word: string, tail: string)
    requires !AllSpace(s)
    ensures s == pre + (word + tail) && AllSpace(pre) && NoSpace(word) && word != "" && (tail != "" ==> IsSpace(tail[0]))
  {
    hide IsSpace, NoSpace, AllSpace, TakeWord, StripLeft;
    pre := StripLeftCuts(s);
    var rest := StripLeft(s);
    StripLeftStarts(s);
    assert rest == "" ==> s == pre;
    TakeWordIsPrefix(rest);
    word, tail := TakeWord(rest), rest[|TakeWord(rest)|..];
    TakeWordHasNoSpace(rest);
    TakeWordEnds(rest);
    assert rest == word + tail;
  }

  lemma {:induction false} LastWord(front: string, ref: string, post: string)
    requires (front != "" ==> IsSpace(front[|front| - 1])) && NoSpace(ref) && ref != "" && AllSpace(post)
    ensures Words(front + ref + post) == Words(front) + [ref]
    decreases |front|
  {
    hide Words, IsSpace, NoSpace, AllSpace;
    if AllSpace(front) {
      WordsOfSpace(front);
      WordsOfSpace(post);
      FirstIsSpace(post);
      WordsCons(front, ref, post);
      assert front + ref + post == front + (ref + post);
    } else {
      var pre, word, tail := FirstWord(front);
      LastOfTail(pre, word, tail);
      WordsCons(pre, word, tail);
      assert front + ref + post == pre + (word + (tail + ref + post));
      WordsCons(pre, word, tail + ref + post);
      LastWord(tail, ref, post);
    }
  }

  lemma FirstIsSpace(post: string)
    requires AllSpace(post)
    ensures post != "" ==> IsSpace(post[0])
  {
  }

  lemma LastOfTail(pre: string, word: string, tail: string)
    requires NoSpace(word) && word != ""
    requires var s := pre + (word + tail); IsSpace(s[|s| - 1])
    ensures tail != "" && IsSpace(tail[|tail| - 1])
  {
    var s := pre + (word + tail);
    assert s[|s| - 1] == (word + tail)[|word + tail| - 1];
    assert tail == "" ==> word + tail == word;
  }

  lemma {:induction false} TakeWordEnds(s: string)
    ensures TakeWord(s) <= s
    ensures |TakeWord(s)| < |s| ==> IsSpace(s[|TakeWord(s)|])
  {
    if s != "" && !IsSpace(s[0]) {
      TakeWordEnds(s[1..]);
    }
  }

  /** `normalize_v2_to_flat` as `load_manifest` calls it for a manifest without scenarios. */
  function ToFlat(v2: V2, arch: string): Flat {
    var link := if v2.git.Some? && Truthy(v2.git.value) then Str(v2.git.value) else ODOO_GIT_LINK;
    Flat(Some(if Filled(v2.odooVersion) then v2.odooVersion.value
              else if RefFromGitLink(link) != "" then Value.Text(RefFromGitLink(link)) else Number("0.0", true)),
         Some(if v2.python.Some? then v2.python.value else Null),
         Some(if v2.distroName.Some? then v2.distroName.value else Null),
         Some(Value.Text(Str(Or(v2.distroVersion, "")))),
         Some(Value.Text(Str(Or(v2.postgres, "")))),
         Some(Value.Text(link)),
         Some(Or(v2.buildDate, LATEST)),
         Some(Or(v2.platformName, PLATFORM_NAME)),
         Some(Or(v2.arch, arch)),
         Clean(v2.dependencies), Clean(v2.requirements))
  }

  // ---- What survives ------------------------------------------------------------------------------------------------

  predicate Kept(before: Option<Value>, after: Option<Value>) {
    before.Some? ==> after == before
  }

  /** Every setting the v1 manifest gives reads the same after migration. */
  predicate KeepsExplicit(before: Flat, after: Flat) {
    && Kept(before.odooVersion, after.odooVersion) && Kept(before.python, after.python)
    && Kept(before.distroName, after.distroName) && Kept(before.distroVersion, after.distroVersion)
    && Kept(before.postgres, after.postgres) && Kept(before.gitLink, after.gitLink)
    && Kept(before.buildDate, after.buildDate) && Kept(before.platformName, after.platformName)
    && Kept(before.arch, after.arch)
    && after.dependencies == before.dependencies && after.requirements == before.requirements
  }

  predicate GivenAsText(v: Option<Value>) {
    v.Some? ==> v.value.Text?
  }

  predicate GivenFilled(v: Option<Value>) {
    v.Some? ==> Truthy(v.value)
  }

  /** Versions, names and links are written as strings, links and dates not empty, and lists hold stripped entries. */
  predicate Migratable(s: Flat) {
    && (s.odooVersion.Some? ==> Filled(s.odooVersion))
    && GivenAsText(s.python) && GivenAsText(s.distroName) && GivenAsText(s.distroVersion) && GivenAsText(s.postgres)
    && GivenAsText(s.gitLink) && GivenFilled(s.gitLink) && GivenAsText(s.buildDate) && GivenFilled(s.buildDate)
    && GivenFilled(s.platformName) && GivenFilled(s.arch)
    && Clean(s.dependencies) == s.dependencies && Clean(s.requirements) == s.requirements
  }

  lemma PlatformKept(v1: V1, user: Option<Value>, lock: Option<Lock>, arch: string)
    ensures var s, flat := v1.settings, ToFlat(Migrated(v1, user, lock), arch);
      && (Kept(s.gitLink, flat.gitLink) <==> GivenAsText(s.gitLink) && GivenFilled(s.gitLink))
      && (Kept(s.buildDate, flat.buildDate) <==> GivenAsText(s.buildDate) && GivenFilled(s.buildDate))
      && (Kept(s.odooVersion, flat.odooVersion) <==> (s.odooVersion.Some? ==> Filled(s.odooVersion)))
  {
    hide RefFromGitLink;
  }

  lemma NamesKept(v1: V1, user: Option<Value>, lock: Option<Lock>, arch: string)
    requires arch != ""
    ensures var s, flat := v1.settings, ToFlat(Migrated(v1, user, lock), arch);
      && (Kept(s.platformName, flat.platformName) <==> GivenFilled(s.platformName))
      && (Kept(s.arch, flat.arch) <==> GivenFilled(s.arch))
  {
  }

  lemma VersionsKept(v1: V1, user: Option<Value>, lock: Option<Lock>, arch: string)
    ensures var s, flat := v1.settings, ToFlat(Migrated(v1, user, lock), arch);
      && (Kept(s.python, flat.python) <==> GivenAsText(s.python))
      && (Kept(s.distroName, flat.distroName) <==> GivenAsText(s.distroName))
      && (Kept(s.distroVersion, flat.distroVersion) <==> GivenAsText(s.distroVersion))
      && (Kept(s.postgres, flat.postgres) <==> GivenAsText(s.postgres))
  {
  }

  /** Migrating and reading back keeps every explicit setting exactly when the manifest is written plainly. */
  lemma MigrationKeepsExactlyWhen(v1: V1, user: Option<Value>, lock: Option<Lock>, arch: string)
    requires arch != ""
    ensures KeepsExplicit(v1.settings, ToFlat(Migrated(v1, user, lock), arch)) <==> Migratable(v1.settings)
  {
    hide RefFromGitLink, MigratedLocks, DevelopingLink;
    PlatformKept(v1, user, lock, arch);
    NamesKept(v1, user, lock, arch);
    VersionsKept(v1, user, lock, arch);
  }

  /** Settings that are absent read as their defaults, the version as the ref in the platform link if it has one. */
  lemma AbsentSettingsDefault(user: Option<Value>, lock: Option<Lock>, arch: string)
    ensures var none := Flat(None, None, None, None, None, None, None, None, None, [], []);
      ToFlat(Migrated(V1(false, none, None), user, lock), arch) ==
        Flat(Some(Number("0.0", true)), Some(Value.Text(DEFAULT_PYTHON)), Some(Value.Text(DEFAULT_DISTRO)),
             Some(Value.Text(DEFAULT_DISTRO_VERSION)), Some(Value.Text(DEFAULT_POSTGRES)), Some(Value.Text(ODOO_GIT_LINK)),
             Some(Value.Text(LATEST)), Some(Value.Text(PLATFORM_NAME)), Some(Value.Text(arch)), [], [])
  {
    hide MigratedLocks, DevelopingLink;
    DefaultLinkHasNoRef();
  }

  /** Without a version the ref in the platform link is read as one. */
  lemma VersionFromLink(v1: V1, user: Option<Value>, lock: Option<Lock>, arch: string, front: string, ref: string, post: string)
    requires front != "" && IsSpace(front[|front| - 1]) && !AllSpace(front) && NoSpace(ref) && ref != "" && AllSpace(post)
    requires v1.settings.gitLink == Some(Value.Text(front + ref + post)) && v1.settings.odooVersion == None
    ensures ToFlat(Migrated(v1, user, lock), arch).odooVersion == Some(Value.Text(ref))
  {
    hide MigratedLocks, DevelopingLink, RefFromGitLink;
    RefIsLastWord(front, ref, post);
  }

  /** A v2 manifest that leaves everything out reads as empty versions and the defaults. */
  lemma EmptyReads(arch: string)
    ensures var empty := V2(None, None, None, None, None, None, [], [], None, None, None, None, None);
      ToFlat(empty, arch) ==
        Flat(Some(Number("0.0", true)), Some(Null), Some(Null), Some(Value.Text("")), Some(Value.Text("")),
             Some(Value.Text("https://github.com/odoo/odoo.git")), Some(Value.Text("latest")), Some(Value.Text("odoo")),
             Some(Value.Text(arch)), [], [])
  {
    DefaultLinkHasNoRef();
  }

  /** The lock carried into the manifest rebuilds to the lock it came from, up to branches and kinds. */
  lemma MigratedLocksRebuild(v1: V1, user: Option<Value>, lock: Lock, platformLink: string, developingLink: Option<string>,
                             links: seq<string>)
    requires lock.platform.Some? && Identified(Entries(lock))
    requires Sorted(EntryLeq, lock.dependencies) && StableKeys(lock.dependencies)
    requires Canonical(platformLink) == Some(Key(lock.platform.value))
    requires lock.developing.Some? ==> developingLink.Some? && Canonical(developingLink.value) == Some(Key(lock.developing.value))
    requires lock.developing.None? ==> developingLink.None?
    requires LinksCover(lock, links)
    ensures var locks := Migrated(v1, user, Some(lock)).locks;
      locks.Some? && Rebuilt(locks.value, platformLink, developingLink, links) == Ok(EraseLock(lock))
  {
    hide Identified, StableKeys, LinksCover, Rebuilt, Canonical, Str, Truthy, Or, Strip;
    ManifestRoundTrip(lock, platformLink, developingLink, links);
    LockedMapNotEmpty(lock);
  }

  lemma LockedMapNotEmpty(lock: Lock)
    requires lock.platform.Some? && Identified(Entries(lock))
    ensures PutAll([], Entries(lock)) != []
  {
    hide Canonical;
    PutAllFreshStart(Entries(lock));
  }

  lemma LinkTailNoSpace()
    ensures NoSpace("odoo" + ("/odoo" + DOT_GIT))
  {
    ConcatNoSpace("/odoo", DOT_GIT);
    ConcatNoSpace("odoo", "/odoo" + DOT_GIT);
  }

  lemma LinkHostNoSpace()
    ensures NoSpace(HTTPS + ("github" + ".com/"))
  {
    SchemesNoSpace();
    ConcatNoSpace("github", ".com/");
    ConcatNoSpace(HTTPS, "github" + ".com/");
  }

  lemma LinkNoSpace()
    ensures NoSpace(ODOO_GIT_LINK)
  {
    hide NoSpace;
    assert ODOO_GIT_LINK == (HTTPS + ("github" + ".com/")) + ("odoo" + ("/odoo" + DOT_GIT));
    LinkTailNoSpace();
    LinkHostNoSpace();
    ConcatNoSpace(HTTPS + ("github" + ".com/"), "odoo" + ("/odoo" + DOT_GIT));
  }

  lemma DefaultLinkHasNoRef()
    ensures RefFromGitLink(ODOO_GIT_LINK) == ""
  {
    LinkNoSpace();
    assert StripLeft(ODOO_GIT_LINK) == ODOO_GIT_LINK;
    assert ODOO_GIT_LINK + "" == ODOO_GIT_LINK;
    TakeWordStops(ODOO_GIT_LINK, "");
    assert Words("") == [];
  }
}
