/** Canonical repository URLs for lock storage and lookup (git/deps_lock.py). The URL syntax is that of
    section 3 of RFC 3986; host names compare without regard to case (section 6.2.2.1). */
module RepoUrl {
  import opened Results
  import opened Text

  const FILE := "file://"
  const HTTP := "http://"
  const HTTPS := "https://"
  const GIT_AT := "git@"
  const DOT_GIT := ".git"

  // ---- The first word, without trailing slashes and one `.git` -----------------------------------------------

  function TakeWord(s: string): string {
    if s != "" && !IsSpace(s[0]) then [s[0]] + TakeWord(s[1..]) else ""
  }

  /** `url.strip().split()[0]`, empty when there is no word. */
  function Token(url: string): string {
    TakeWord(StripLeft(url))
  }

  function DropSlashes(s: string): (r: string)
    ensures r <= s
    ensures r != "" ==> r[|r| - 1] != '/'
  {
    if s != "" && s[|s| - 1] == '/' then DropSlashes(s[..|s| - 1]) else s
  }

  function DropLeadingSlashes(s: string): (r: string)
    ensures |r| <= |s|
  {
    if s != "" && s[0] == '/' then DropLeadingSlashes(s[1..]) else s
  }

  predicate EndsWithGit(s: string) {
    |s| >= 4 && s[|s| - 4..] == DOT_GIT
  }

  function DropGit(s: string): (r: string)
    ensures r <= s
  {
    if EndsWithGit(s) then s[..|s| - 4] else s
  }

  /** `normalize_repo_url` of a word */
  function Normalize(token: string): (r: string)
    ensures r <= token
  {
    DropGit(DropSlashes(token))
  }

  // ---- URL parts -------------------------------------------------------------------------------------------------

  /** The part of `s` before the first character in `stops`. */
  function Before(s: string, stops: set<char>): (r: string)
    ensures r <= s
    ensures forall i | 0 <= i < |r| :: r[i] !in stops
    ensures |r| < |s| ==> s[|r|] in stops
  {
    if s == "" || s[0] in stops then "" else [s[0]] + Before(s[1..], stops)
  }

  /** Authority: up to the first slash, question mark or hash. */
  function Authority(rest: string): string { Before(rest, {'/', '?', '#'}) }

  /** Position just behind the last slash. */
  function LastSegmentStart(path: string): (k: nat)
    ensures k <= |path|
  {
    if path == "" || path[|path| - 1] == '/' then |path| else LastSegmentStart(path[..|path| - 1])
  }

  /** `urlparse` cuts the parameters, from the first semicolon of the last segment on. */
  function CutParams(path: string): (r: string)
    ensures r <= path
  {
    var k := LastSegmentStart(path);
    path[..k] + Before(path[k..], {';'})
  }

  /** The path `urlparse` reports for what follows the authority: no query, fragment or parameters. */
  function Path(after: string): (r: string)
    ensures r <= after
  {
    CutParams(Before(after, {'?', '#'}))
  }

  /** `^git@([^:]+):(.+)$` */
  predicate IsSsh(s: string) {
    && GIT_AT <= s
    && var rest := s[4..]; var host := Before(rest, {':'});
       host != "" && |host| + 1 < |rest|
  }

  /** Host and path are not empty, and the host ends at the first colon. */
  lemma SshExactlyWhen(s: string)
    ensures IsSsh(s) <==> exists host, path ::
      s == "git@" + (host + (":" + path)) && host != "" && path != "" && NoneOf(host, {':'})
  {
    if IsSsh(s) {
      var rest := s[4..];
      var host := Before(rest, {':'});
      assert rest == host + (":" + rest[|host| + 1..]);
      assert s == "git@" + rest && NoneOf(host, {':'});
    }
    if host, path :| s == "git@" + (host + (":" + path)) && host != "" && path != "" && NoneOf(host, {':'}) {
      assert s[4..] == host + (":" + path);
      BeforeStop(host, ":" + path, {':'});
    }
  }

  function SshHost(s: string): string
    requires IsSsh(s)
  {
    Before(s[4..], {':'})
  }

  function SshPath(s: string): string
    requires IsSsh(s)
  {
    s[4 + |SshHost(s)| + 1..]
  }

  // ---- Canonical form ----------------------------------------------------------------------------------------------

  /** What follows the authority. */
  function AfterAuthority(rest: string): string {
    rest[|Authority(rest)|..]
  }

  function HttpsUrl(authority: string, tail: string): string {
    HTTPS + (authority + tail)
  }

  function FromHttps(rest: string): string {
    HttpsUrl(Lower(Authority(rest)), DropSlashes(Path(AfterAuthority(rest))))
  }

  function FromSsh(n: string): string
    requires IsSsh(n)
  {
    HttpsUrl(Lower(SshHost(n)), "/" + DropSlashes(DropLeadingSlashes(SshPath(n))))
  }

  /** `canonical_repo_url` of a normalised word */
  function Canon(n: string): string {
    if FILE <= n then DropSlashes(n)
    else if IsSsh(n) then FromSsh(n)
    else if HTTP <= n then FromHttps(n[7..])
    else if HTTPS <= n then FromHttps(n[8..])
    else n
  }

  /** `canonical_repo_url`; a blank URL raises. */
  function Canonical(url: string): Option<string> {
    if Token(url) == "" then None else Some(Canon(Normalize(Token(url))))
  }

  // ---- Helper lemmas about the parts ---------------------------------------------------------------------------------

  lemma {:induction false} BeforeStop(a: string, b: string, stops: set<char>)
    requires forall i | 0 <= i < |a| :: a[i] !in stops
    requires b == "" || b[0] in stops
    ensures Before(a + b, stops) == a
  {
    if a == "" {
      assert a + b == b;
    } else {
      assert (a + b)[1..] == a[1..] + b;
      BeforeStop(a[1..], b, stops);
    }
  }

  lemma {:induction false} BeforeBounded(a: string, b: string, stops: set<char>)
    requires b == "" || b[0] in stops
    ensures Before(a + b, stops) <= a
  {
    if a == "" {
      assert a + b == b;
    } else {
      assert (a + b)[1..] == a[1..] + b;
      BeforeBounded(a[1..], b, stops);
    }
  }

  lemma BeforeNothing(s: string, stops: set<char>)
    requires forall i | 0 <= i < |s| :: s[i] !in stops
    ensures Before(s, stops) == s
  {
    assert s + "" == s;
    BeforeStop(s, "", stops);
  }

  lemma {:induction false} DropSlashesOff(s: string, slashes: string)
    requires s != "" && s[|s| - 1] != '/'
    requires forall i | 0 <= i < |slashes| :: slashes[i] == '/'
    ensures DropSlashes(s + slashes) == s
  {
    if slashes == "" {
      assert s + slashes == s;
    } else {
      var init := slashes[..|slashes| - 1];
      assert (s + slashes)[..|s + slashes| - 1] == s + init;
      DropSlashesOff(s, init);
    }
  }

  lemma {:induction false} DropLeadingOff(slashes: string, s: string)
    requires s != "" && s[0] != '/'
    requires forall i | 0 <= i < |slashes| :: slashes[i] == '/'
    ensures DropLeadingSlashes(slashes + s) == s
  {
    if slashes == "" {
      assert slashes + s == s;
    } else {
      assert (slashes + s)[1..] == slashes[1..] + s;
      DropLeadingOff(slashes[1..], s);
    }
  }

  lemma {:induction false} LastSegmentClear(path: string)
    ensures forall i | LastSegmentStart(path) <= i < |path| :: path[i] != '/'
  {
    if path != "" && path[|path| - 1] != '/' {
      LastSegmentClear(path[..|path| - 1]);
    }
  }

  // ---- Spellings of one repository --------------------------------------------------------------------------------------

  predicate NoSpace(s: string) {
    forall i | 0 <= i < |s| :: !IsSpace(s[i])
  }

  predicate NoneOf(s: string, bad: set<char>) {
    forall i | 0 <= i < |s| :: s[i] !in bad
  }

  /** A host name without port. */
  predicate PlainHost(h: string) {
    h != "" && NoSpace(h) && NoneOf(h, {':', '/', '?', '#'})
  }

  /** A repository path without query, parameters, surrounding slashes or `.git`. */
  predicate PlainPath(p: string) {
    p != "" && p[0] != '/' && p[|p| - 1] != '/' && !EndsWithGit(p) && NoSpace(p) && NoneOf(p, {'?', '#', ';'})
  }

  function Slashes(n: nat): string { seq(n, _ => '/') }

  /** Optional `.git`, then any number of slashes. */
  function Tail(dotGit: bool, slashes: nat): string {
    (if dotGit then ".git" else "") + Slashes(slashes)
  }

  function HttpSpelling(h: string, p: string): string { "http://" + (h + ("/" + p)) }

  function HttpsSpelling(h: string, p: string): string { "https://" + (h + ("/" + p)) }

  function SshSpelling(h: string, lead: nat, p: string): string { "git@" + (h + (":" + (Slashes(lead) + p))) }

  lemma NormalizeTail(s: string, dotGit: bool, slashes: nat)
    requires s != "" && s[|s| - 1] != '/' && !EndsWithGit(s)
    ensures Normalize(s + Tail(dotGit, slashes)) == s
  {
    var base := if dotGit then s + DOT_GIT else s;
    assert s + Tail(dotGit, slashes) == base + Slashes(slashes);
    DropSlashesOff(base, Slashes(slashes));
    if dotGit {
      assert base[|base| - 4..] == DOT_GIT && base[..|base| - 4] == s;
    }
  }

  /** `urlparse` keeps a path whole exactly when there is no query, no fragment and no parameter on its last segment. */
  predicate Uncut(after: string) {
    && NoneOf(after, {'?', '#'})
    && forall i | LastSegmentStart(after) <= i < |after| :: after[i] != ';'
  }

  lemma PathUncut(after: string)
    ensures Path(after) == after <==> Uncut(after)
    ensures !Uncut(after) ==> |Path(after)| < |after|
  {
    hide Before, LastSegmentStart;
    var whole := Before(after, {'?', '#'});
    var k := LastSegmentStart(whole);
    var segment := Before(whole[k..], {';'});
    assert |Path(after)| == k + |segment|;
    if Uncut(after) {
      BeforeNothing(after, {'?', '#'});
      BeforeNothing(after[k..], {';'});
      assert after[..k] + after[k..] == after;
    }
    if |Path(after)| == |after| {
      assert whole == after && segment == after[k..];
      forall i | k <= i < |after| ensures after[i] != ';' {
        assert segment[i - k] == after[i];
      }
    }
  }

  lemma HttpsUrlParts(authority: string, tail: string)
    ensures HTTPS <= HttpsUrl(authority, tail) && HttpsUrl(authority, tail)[8..] == authority + tail
    ensures !(HTTP <= HttpsUrl(authority, tail)) && !(FILE <= HttpsUrl(authority, tail)) && !IsSsh(HttpsUrl(authority, tail))
  {
    var y := HttpsUrl(authority, tail);
    assert y[0] == 'h' && y[4] == 's';
  }

  lemma AuthorityParts(authority: string, tail: string)
    requires NoneOf(authority, {'/', '?', '#'}) && (tail == "" || tail[0] in {'/', '?', '#'})
    ensures Authority(authority + tail) == authority && AfterAuthority(authority + tail) == tail
  {
    BeforeStop(authority, tail, {'/', '?', '#'});
  }

  lemma FromHttpsPlain(h: string, p: string)
    requires PlainHost(h) && PlainPath(p)
    ensures FromHttps(h + ("/" + p)) == HttpsUrl(Lower(h), "/" + p)
  {
    hide Before, Path, Lower, LastSegmentStart;
    AuthorityParts(h, "/" + p);
    assert Uncut("/" + p);
    PathUncut("/" + p);
    assert DropSlashes("/" + p) == "/" + p;
  }

  lemma CanonOfScheme(rest: string)
    ensures Canon(HTTP + rest) == Canon(HTTPS + rest) == FromHttps(rest)
  {
    assert (HTTP + rest)[7..] == rest && (HTTPS + rest)[8..] == rest;
    assert (HTTP + rest)[0] == 'h' && (HTTPS + rest)[0] == 'h' && (HTTPS + rest)[4] == 's';
  }

  lemma CanonOfHttp(h: string, p: string)
    requires PlainHost(h) && PlainPath(p)
    ensures Canon(HttpSpelling(h, p)) == Canon(HttpsSpelling(h, p)) == HttpsUrl(Lower(h), "/" + p)
  {
    FromHttpsPlain(h, p);
    CanonOfScheme(h + ("/" + p));
  }

  lemma CanonOfSsh(h: string, lead: nat, p: string)
    requires PlainHost(h) && PlainPath(p)
    ensures Canon(SshSpelling(h, lead, p)) == HttpsUrl(Lower(h), "/" + p)
  {
    var n, path := SshSpelling(h, lead, p), Slashes(lead) + p;
    assert n[0] == 'g';
    assert n[4..] == h + (":" + path);
    BeforeStop(h, ":" + path, {':'});
    assert SshHost(n) == h;
    assert SshPath(n) == path by {
      assert n[4 + |h| + 1..] == n[4..][|h|..][1..];
    }
    DropLeadingOff(Slashes(lead), p);
    assert DropSlashes(p) == p;
  }

  lemma SchemesNoSpace()
    ensures NoSpace(HTTP) && NoSpace(HTTPS) && NoSpace(GIT_AT)
  {
    forall i | 0 <= i < |HTTPS| ensures HTTPS[i] in {'h', 't', 'p', 's', ':', '/'} {
      assert HTTPS == ['h', 't', 't', 'p', 's', ':', '/', '/'];
    }
    forall i | 0 <= i < |HTTP| ensures HTTP[i] in {'h', 't', 'p', ':', '/'} {
      assert HTTP == ['h', 't', 't', 'p', ':', '/', '/'];
    }
    forall i | 0 <= i < |GIT_AT| ensures GIT_AT[i] in {'g', 'i', 't', '@'} {
      assert GIT_AT == ['g', 'i', 't', '@'];
    }
  }

  lemma ConcatNoSpace(a: string, b: string)
    requires NoSpace(a) && NoSpace(b)
    ensures NoSpace(a + b)
  {
  }

  lemma {:induction false} TakeWordStops(word: string, post: string)
    requires NoSpace(word) && (post != "" ==> IsSpace(post[0]))
    ensures TakeWord(word + post) == word
  {
    if word == "" {
      assert word + post == post;
    } else {
      assert (word + post)[1..] == word[1..] + post;
      TakeWordStops(word[1..], post);
    }
  }

  /** White space before the URL, and anything after it such as a branch, does not matter. */
  lemma TokenOfLine(pre: string, word: string, post: string)
    requires AllSpace(pre)
    requires word != "" && NoSpace(word) && (post != "" ==> IsSpace(post[0]))
    ensures Token(pre + (word + post)) == word
  {
    StripLeftOff(pre, word + post);
    TakeWordStops(word, post);
  }

  lemma {:induction false} TakeWordUnstripped(s: string)
    ensures TakeWord(StripRight(s)) == TakeWord(s)
    decreases |s|
  {
    if s != "" && IsSpace(s[|s| - 1]) {
      var init := s[..|s| - 1];
      TakeWordUnstripped(init);
      TakeWordInit(init, s[|s| - 1]);
      assert s == init + [s[|s| - 1]];
    }
  }

  lemma {:induction false} TakeWordInit(s: string, c: char)
    requires IsSpace(c)
    ensures TakeWord(s + [c]) == TakeWord(s)
  {
    if s != "" {
      assert (s + [c])[1..] == s[1..] + [c];
      TakeWordInit(s[1..], c);
    }
  }

  /** Stripping first does not change the word, and so not the canonical form. */
  lemma CanonicalOfStripped(url: string)
    ensures Canonical(Strip(url)) == Canonical(url)
  {
    StripIsStripped(url);
    assert StripLeft(Strip(url)) == Strip(url);
    TakeWordUnstripped(StripLeft(url));
  }

  lemma WordIsToken(word: string)
    requires word != "" && NoSpace(word)
    ensures Token(word) == word
  {
    assert "" + (word + "") == word;
    TokenOfLine("", word, "");
  }

  lemma CanonicalOfWord(word: string)
    requires word != "" && NoSpace(word)
    ensures Canonical(word) == Some(Canon(Normalize(word)))
  {
    WordIsToken(word);
  }

  /** `base` is a spelling that ends in the path. */
  predicate EndsInPath(base: string, p: string) {
    && NoSpace(base) && |p| < |base|
    && base[|base| - |p|..] == p && base[|base| - |p| - 1] in {'/', ':'}
  }

  lemma SpellingsEndInPath(h: string, p: string)
    requires PlainHost(h) && PlainPath(p)
    ensures EndsInPath(HttpSpelling(h, p), p) && EndsInPath(HttpsSpelling(h, p), p)
  {
    SchemesNoSpace();
    ConcatNoSpace("/", p);
    ConcatNoSpace(h, "/" + p);
    ConcatNoSpace(HTTP, h + ("/" + p));
    ConcatNoSpace(HTTPS, h + ("/" + p));
  }

  lemma SshEndsInPath(h: string, lead: nat, p: string)
    requires PlainHost(h) && PlainPath(p)
    ensures EndsInPath(SshSpelling(h, lead, p), p)
  {
    var front := GIT_AT + h + ":" + Slashes(lead);
    assert SshSpelling(h, lead, p) == front + p;
    assert front[|front| - 1] in {'/', ':'};
  }

  /** A spelling `base` that ends in the path can be followed by `.git` and slashes. */
  lemma CanonicalWithTail(base: string, p: string, dotGit: bool, slashes: nat)
    requires PlainPath(p) && EndsInPath(base, p)
    ensures Canonical(base + Tail(dotGit, slashes)) == Some(Canon(base))
  {
    assert base[|base| - 1] == p[|p| - 1];
    NotGitSuffix(base, p);
    NormalizeTail(base, dotGit, slashes);
    assert NoSpace(base + Tail(dotGit, slashes));
    CanonicalOfWord(base + Tail(dotGit, slashes));
  }

  lemma NotGitSuffix(base: string, p: string)
    requires PlainPath(p) && EndsInPath(base, p)
    ensures !EndsWithGit(base)
  {
    if |p| >= 4 {
      assert base[|base| - 4..] == p[|p| - 4..];
    } else if |base| >= 4 {
      assert base[|base| - 4..][3 - |p|] == base[|base| - |p| - 1];
    }
  }

  /** `git@host:path`, `http://` and `https://` spellings, with or without `.git` and trailing slashes,
      have one canonical form. */
  lemma SpellingsAgree(h: string, p: string, dotGit: bool, slashes: nat, lead: nat)
    requires PlainHost(h) && PlainPath(p)
    ensures Canonical(HttpSpelling(h, p) + Tail(dotGit, slashes)) == Some(HttpsUrl(Lower(h), "/" + p))
    ensures Canonical(HttpsSpelling(h, p) + Tail(dotGit, slashes)) == Some(HttpsUrl(Lower(h), "/" + p))
    ensures Canonical(SshSpelling(h, lead, p) + Tail(dotGit, slashes)) == Some(HttpsUrl(Lower(h), "/" + p))
  {
    CanonOfHttp(h, p);
    CanonOfSsh(h, lead, p);
    SpellingsEndInPath(h, p);
    SshEndsInPath(h, lead, p);
    CanonicalWithTail(HttpSpelling(h, p), p, dotGit, slashes);
    CanonicalWithTail(HttpsSpelling(h, p), p, dotGit, slashes);
    CanonicalWithTail(SshSpelling(h, lead, p), p, dotGit, slashes);
  }

  /** `url` is one of the three spellings of the path on the host, with or without `.git` and trailing slashes. */
  ghost predicate Spells(url: string, h: string, p: string) {
    exists base, dotGit, slashes, lead: nat :: url == base + Tail(dotGit, slashes)
      && (base == HttpSpelling(h, p) || base == HttpsSpelling(h, p) || base == SshSpelling(h, lead, p))
  }

  /** Two URLs, in whatever spelling, share the canonical form exactly when their hosts are equal but for ASCII case
      and their paths are equal. */
  lemma CanonicalIdentifies(url: string, h: string, p: string, url': string, h': string, p': string)
    requires PlainHost(h) && PlainPath(p) && Spells(url, h, p)
    requires PlainHost(h') && PlainPath(p') && Spells(url', h', p')
    ensures Canonical(url).Some? && Canonical(url').Some?
    ensures Canonical(url) == Canonical(url') <==> SameButForCase(h, h') && p == p'
  {
    hide Canonical, Lower, HttpsUrl, PlainHost, PlainPath, SameButForCase, Spells;
    CanonicalOfSpelling(url, h, p);
    CanonicalOfSpelling(url', h', p');
    LowerAgreesExactlyWhen(h, h');
    CanonicalParts(h, p, h', p');
  }

  lemma CanonicalOfSpelling(url: string, h: string, p: string)
    requires PlainHost(h) && PlainPath(p) && Spells(url, h, p)
    ensures Canonical(url) == Some(HttpsUrl(Lower(h), "/" + p))
  {
    hide Canonical, Lower, HttpsUrl, PlainHost, PlainPath, Tail, HttpSpelling, HttpsSpelling, SshSpelling;
    var base, dotGit, slashes, lead: nat :| url == base + Tail(dotGit, slashes)
      && (base == HttpSpelling(h, p) || base == HttpsSpelling(h, p) || base == SshSpelling(h, lead, p));
    SpellingsAgree(h, p, dotGit, slashes, lead);
  }

  lemma CanonicalParts(h: string, p: string, h': string, p': string)
    requires PlainHost(h) && PlainPath(p) && PlainHost(h') && PlainPath(p')
    ensures HttpsUrl(Lower(h), "/" + p) == HttpsUrl(Lower(h'), "/" + p') <==> Lower(h) == Lower(h') && p == p'
  {
    HttpsUrlParts(Lower(h), "/" + p);
    HttpsUrlParts(Lower(h'), "/" + p');
    AuthorityParts(Lower(h), "/" + p);
    AuthorityParts(Lower(h'), "/" + p');
    assert ("/" + p)[1..] == p && ("/" + p')[1..] == p';
  }

  // ---- Idempotence ------------------------------------------------------------------------------------------------------

  /** Nothing is left in `y` that another pass would remove: no trailing slash or `.git`, and in an https URL
      no query, no fragment and no parameters on the last path segment. */
  predicate Settled(y: string) {
    && y != "" && y[|y| - 1] != '/' && !EndsWithGit(y)
    && (HTTPS <= y ==> Uncut(AfterAuthority(y[8..])))
  }

  /** The shapes a canonical form can have. */
  predicate IsCanonShape(y: string) {
    && !(HTTP <= y) && !IsSsh(y)
    && (HTTPS <= y ==> Lower(Authority(y[8..])) == Authority(y[8..]))
  }

  lemma SshPrefix(s: string, t: string)
    requires s <= t && IsSsh(s)
    ensures IsSsh(t)
  {
    var rest, rest' := s[4..], t[4..];
    var host := Before(rest, {':'});
    assert rest' == host + rest'[|host|..] && rest'[|host|] == rest[|host|];
    BeforeStop(host, rest'[|host|..], {':'});
  }

  lemma LoweredPrefix(x: string, a: string)
    requires Lower(x) == x && a <= x
    ensures Lower(a) == a
  {
    forall i | 0 <= i < |a| ensures LowerChar(a[i]) == a[i] {
      assert a[i] == x[i] == Lower(x)[i];
    }
  }

  /** An https URL whose authority part was lower-cased keeps its authority when that is parsed again. */
  lemma HttpsShape(host: string, tail: string)
    requires Lower(host) == host && (tail == "" || tail[0] == '/')
    ensures IsCanonShape(HttpsUrl(host, tail))
  {
    HttpsUrlParts(host, tail);
    BeforeBounded(host, tail, {'/', '?', '#'});
    LoweredPrefix(host, Authority(host + tail));
  }

  lemma PathStart(rest: string)
    ensures var tail := DropSlashes(Path(AfterAuthority(rest))); tail == "" || tail[0] == '/'
  {
    var after := AfterAuthority(rest);
    if after != "" {
      assert after[0] == rest[|Authority(rest)|];
    }
  }

  lemma CanonShape(n: string)
    ensures IsCanonShape(Canon(n))
  {
    if FILE <= n {
      assert Canon(n) == "" || Canon(n)[0] == 'f';
    } else if IsSsh(n) {
      LowerTwice(SshHost(n));
      HttpsShape(Lower(SshHost(n)), "/" + DropSlashes(DropLeadingSlashes(SshPath(n))));
    } else if HTTP <= n || HTTPS <= n {
      var rest := if HTTP <= n then n[7..] else n[8..];
      LowerTwice(Authority(rest));
      PathStart(rest);
      HttpsShape(Lower(Authority(rest)), DropSlashes(Path(AfterAuthority(rest))));
    }
  }

  /** Outside `http://` and `git@`, a pass never lengthens, and shortens an https URL that has something to cut. */
  lemma CanonShrinks(n: string)
    requires !(HTTP <= n) && !IsSsh(n)
    ensures |Canon(n)| <= |n|
    ensures HTTPS <= n && !Uncut(AfterAuthority(n[8..])) ==> |Canon(n)| < |n|
  {
    if HTTPS <= n {
      assert n[0] == 'h';
      var after := AfterAuthority(n[8..]);
      PathUncut(after);
      assert |DropSlashes(Path(after))| <= |Path(after)|;
    }
  }

  lemma SettledIsFixed(y: string)
    requires IsCanonShape(y) && Settled(y)
    ensures Canon(Normalize(y)) == y
  {
    assert DropSlashes(y) == y && Normalize(y) == y;
    if HTTPS <= y {
      assert y[0] == 'h';
      SettledHttps(y[8..]);
      assert y == HTTPS + y[8..];
    }
  }

  lemma SettledHttps(rest: string)
    requires Lower(Authority(rest)) == Authority(rest) && Uncut(AfterAuthority(rest))
    requires rest == "" || rest[|rest| - 1] != '/'
    ensures FromHttps(rest) == HTTPS + rest
  {
    var after := AfterAuthority(rest);
    PathUncut(after);
    assert after == "" || after[|after| - 1] == rest[|rest| - 1];
    assert DropSlashes(after) == after;
    assert rest == Authority(rest) + after;
  }

  lemma UnsettledShrinks(y: string)
    requires IsCanonShape(y) && y != "" && !Settled(y)
    ensures |Canon(Normalize(y))| < |y|
  {
    var n := Normalize(y);
    if IsSsh(n) {
      SshPrefix(n, y);
      assert false;
    }
    if HTTP <= n {
      assert false;
    }
    CanonShrinks(n);
    if |n| == |y| {
      assert n == y && DropSlashes(y) == y;
      assert y[|y| - 1] != '/' && !EndsWithGit(y);
    }
  }

  // ---- Canonical forms have no white space ----------------------------------------------------------------------------------

  lemma {:induction false} TakeWordHasNoSpace(s: string)
    ensures NoSpace(TakeWord(s))
  {
    if s != "" && !IsSpace(s[0]) {
      TakeWordHasNoSpace(s[1..]);
    }
  }

  lemma {:induction false} DropLeadingNoSpace(s: string)
    requires NoSpace(s)
    ensures NoSpace(DropLeadingSlashes(s))
  {
    if s != "" && s[0] == '/' {
      DropLeadingNoSpace(s[1..]);
    }
  }

  lemma LowerNoSpace(s: string)
    requires NoSpace(s)
    ensures NoSpace(Lower(s))
  {
    forall i | 0 <= i < |s| ensures !IsSpace(Lower(s)[i]) {
      assert !IsSpace(s[i]);
    }
  }

  lemma HttpsUrlNoSpace(authority: string, tail: string)
    requires NoSpace(authority) && NoSpace(tail)
    ensures NoSpace(HttpsUrl(authority, tail))
  {
  }

  lemma FromHttpsNoSpace(rest: string)
    requires NoSpace(rest)
    ensures NoSpace(FromHttps(rest))
  {
    var a, after := Authority(rest), AfterAuthority(rest);
    assert NoSpace(a) && NoSpace(after);
    LowerNoSpace(a);
    HttpsUrlNoSpace(Lower(a), DropSlashes(Path(after)));
  }

  lemma CanonNoSpace(n: string)
    requires NoSpace(n)
    ensures NoSpace(Canon(n))
  {
    if IsSsh(n) && !(FILE <= n) {
      var host, path := SshHost(n), SshPath(n);
      assert NoSpace(n[4..]) && NoSpace(host) && NoSpace(path);
      LowerNoSpace(host);
      DropLeadingNoSpace(path);
      var tail := "/" + DropSlashes(DropLeadingSlashes(path));
      assert NoSpace(tail);
      HttpsUrlNoSpace(Lower(host), tail);
    } else if HTTP <= n && !(FILE <= n) {
      FromHttpsNoSpace(n[7..]);
    } else if HTTPS <= n && !(FILE <= n) {
      FromHttpsNoSpace(n[8..]);
    }
  }

  // ---- Which URLs have a canonical form that is final ---------------------------------------------------------------------

  /** What canonicalisation keeps of the path behind the host of a `git@` word. */
  function SshTail(n: string): string
    requires IsSsh(n)
  {
    DropSlashes(DropLeadingSlashes(SshPath(n)))
  }

  /** What it keeps of the path of an http(s) URL, given what follows the scheme. */
  function HttpTail(rest: string): string {
    DropSlashes(Path(AfterAuthority(rest)))
  }

  /** Behind an http(s) scheme: something is left, it does not end in `.git`, and dropping the trailing slashes has
      not turned a segment with parameters into the last one. */
  predicate StableRest(rest: string) {
    && Authority(rest) + HttpTail(rest) != ""
    && !EndsWithGit(Lower(Authority(rest)) + HttpTail(rest))
    && Uncut(HttpTail(rest))
  }

  /** Branch by branch, the normalised words whose canonical form is final. */
  predicate Stable(n: string) {
    if FILE <= n then !EndsWithGit(DropSlashes(n))
    else if IsSsh(n) then
      && SshTail(n) != "" && !EndsWithGit(SshTail(n))
      && NoneOf(SshHost(n), {'?', '#'}) && Uncut("/" + SshTail(n))
    else if HTTP <= n then StableRest(n[7..])
    else if HTTPS <= n then StableRest(n[8..])
    else n != "" && n[|n| - 1] != '/' && !EndsWithGit(n)
  }

  /** A written URL whose canonical form is final. */
  predicate StableUrl(url: string) {
    Token(url) != "" && Stable(Normalize(Token(url)))
  }

  lemma GitSuffix(y: string)
    requires EndsWithGit(y)
    ensures y[|y| - 4] == '.' && y[|y| - 3] == 'g' && y[|y| - 2] == 'i' && y[|y| - 1] == 't'
  {
    assert y[|y| - 4..] == ['.', 'g', 'i', 't'];
  }

  lemma GitSuffixOfTail(front: string, tail: string)
    requires tail != "" && (tail[0] == '/' || (front != "" && front[|front| - 1] == '/'))
    ensures EndsWithGit(front + tail) <==> EndsWithGit(tail)
  {
    var y := front + tail;
    if |tail| >= 4 {
      assert y[|y| - 4..] == tail[|tail| - 4..];
    } else if EndsWithGit(y) {
      GitSuffix(y);
    }
  }

  lemma FileStable(n: string)
    requires FILE <= n
    ensures Settled(Canon(n)) <==> Stable(n)
  {
    var y := DropSlashes(n);
    FileKeepsScheme(n);
    assert y[0] == 'f';
  }

  lemma {:induction false} FileKeepsScheme(n: string)
    requires "file:" <= n
    ensures "file:" <= DropSlashes(n)
  {
    if n[|n| - 1] == '/' {
      assert n[4] == ':';
      FileKeepsScheme(n[..|n| - 1]);
    }
  }

  lemma RestStable(rest: string)
    ensures Settled(FromHttps(rest)) <==> StableRest(rest)
  {
    hide Path, Before;
    var a, t := Lower(Authority(rest)), HttpTail(rest);
    PathStart(rest);
    LoweredAuthority(rest);
    HttpsUrlParts(a, t);
    AuthorityParts(a, t);
    HttpsUrlEnd(a, t);
    if a + t != "" {
      LastOfRest(rest);
    }
  }

  lemma HttpsUrlEnd(a: string, t: string)
    ensures var y := HttpsUrl(a, t);
      if a + t == "" then y[|y| - 1] == '/' else y[|y| - 1] == (a + t)[|a + t| - 1] && (EndsWithGit(y) <==> EndsWithGit(a + t))
  {
    if a + t != "" {
      GitSuffixOfTail(HTTPS, a + t);
    }
  }

  lemma LoweredAuthority(rest: string)
    ensures NoneOf(Lower(Authority(rest)), {'/', '?', '#'})
  {
    var a := Authority(rest);
    forall i | 0 <= i < |a| ensures Lower(a)[i] !in {'/', '?', '#'} {
      assert a[i] !in {'/', '?', '#'} && Lower(a)[i] == LowerChar(a[i]);
    }
  }

  lemma LastOfRest(rest: string)
    requires Lower(Authority(rest)) + HttpTail(rest) != ""
    ensures var y := HttpsUrl(Lower(Authority(rest)), HttpTail(rest)); y[|y| - 1] != '/'
  {
    hide Before, Path;
    var a, t := Lower(Authority(rest)), HttpTail(rest);
    LoweredAuthority(rest);
    assert t != "" ==> t[|t| - 1] != '/';
    assert t == "" ==> a[|a| - 1] != '/';
  }

  lemma SshStable(n: string)
    requires IsSsh(n) && !(FILE <= n)
    ensures Settled(Canon(n)) <==> Stable(n)
  {
    var h, t := Lower(SshHost(n)), SshTail(n);
    var y := HttpsUrl(h, "/" + t);
    HttpsUrlParts(h, "/" + t);
    if t == "" {
      assert y[|y| - 1] == '/';
    } else {
      assert y[|y| - 1] == t[|t| - 1] != '/';
      assert y == (HTTPS + h + "/") + t;
      GitSuffixOfTail(HTTPS + h + "/", t);
      SshAuthority(SshHost(n), t);
    }
  }

  /** Nothing of what follows the first slash, question mark or hash is cut exactly when the host has no question
      mark or hash and the path is uncut. */
  lemma SshAuthority(host: string, t: string)
    ensures Uncut(AfterAuthority(Lower(host) + ("/" + t))) <==> NoneOf(host, {'?', '#'}) && Uncut("/" + t)
  {
    hide Uncut;
    var h := Lower(host);
    var a := Authority(h + ("/" + t));
    BeforeBounded(h, "/" + t, {'/', '?', '#'});
    assert AfterAuthority(h + ("/" + t)) == h[|a|..] + ("/" + t);
    LoweredNone(host);
    NoneOfParts(h, |a|);
    UncutConcat(h[|a|..], "/" + t);
  }

  lemma NoneOfParts(h: string, k: nat)
    requires k <= |h| && NoneOf(h[..k], {'?', '#'})
    ensures NoneOf(h, {'?', '#'}) <==> NoneOf(h[k..], {'?', '#'})
  {
    assert h == h[..k] + h[k..];
  }

  lemma UncutConcat(front: string, path: string)
    requires path != "" && path[0] == '/'
    ensures Uncut(front + path) <==> NoneOf(front, {'?', '#'}) && Uncut(path)
  {
    var s := front + path;
    LastSegmentOf(front, path);
    if Uncut(s) {
      forall i | 0 <= i < |path| ensures path[i] !in {'?', '#'} && (LastSegmentStart(path) <= i ==> path[i] != ';') {
        assert s[|front| + i] == path[i];
      }
      forall i | 0 <= i < |front| ensures front[i] !in {'?', '#'} {
        assert s[i] == front[i];
      }
    }
  }

  lemma LoweredNone(host: string)
    ensures NoneOf(Lower(host), {'?', '#'}) <==> NoneOf(host, {'?', '#'})
  {
    forall i | 0 <= i < |host| ensures Lower(host)[i] in {'?', '#'} <==> host[i] in {'?', '#'} {
      assert Lower(host)[i] == LowerChar(host[i]);
    }
  }

  lemma {:induction false} LastSegmentOf(front: string, path: string)
    requires path != "" && path[0] == '/'
    ensures LastSegmentStart(front + path) == |front| + LastSegmentStart(path)
  {
    var s := front + path;
    if path[|path| - 1] != '/' {
      assert s[..|s| - 1] == front + path[..|path| - 1];
      LastSegmentOf(front, path[..|path| - 1]);
    }
  }

  /** The canonical form is settled exactly when the normalised word is stable. */
  lemma SettledExactlyWhen(n: string)
    ensures Settled(Canon(n)) <==> Stable(n)
  {
    if FILE <= n {
      FileStable(n);
    } else if IsSsh(n) {
      SshStable(n);
    } else if HTTP <= n {
      RestStable(n[7..]);
    } else if HTTPS <= n {
      RestStable(n[8..]);
    }
  }

  /** Canonicalising a canonical URL again changes nothing if and only if the URL, as written, is stable. */
  lemma CanonicalTwice(url: string)
    requires Canonical(url).Some?
    ensures Canonical(Canonical(url).value) == Canonical(url) <==> StableUrl(url)
    ensures !StableUrl(url) && Canonical(Canonical(url).value).Some? ==>
      |Canonical(Canonical(url).value).value| < |Canonical(url).value|
  {
    var n := Normalize(Token(url));
    var y := Canon(n);
    TakeWordHasNoSpace(StripLeft(url));
    CanonNoSpace(n);
    CanonShape(n);
    SettledExactlyWhen(n);
    if y != "" {
      CanonicalOfWord(y);
      if Settled(y) {
        SettledIsFixed(y);
      } else {
        UnsettledShrinks(y);
      }
    }
  }

  /** Every spelling of a plain host and path is stable, so its canonical form is final. */
  lemma SpellingsStable(h: string, p: string, dotGit: bool, slashes: nat, lead: nat)
    requires PlainHost(h) && PlainPath(p)
    ensures StableUrl(HttpSpelling(h, p) + Tail(dotGit, slashes))
    ensures StableUrl(HttpsSpelling(h, p) + Tail(dotGit, slashes))
    ensures StableUrl(SshSpelling(h, lead, p) + Tail(dotGit, slashes))
  {
    SpellingsAgree(h, p, dotGit, slashes, lead);
    PlainIsSettled(h, p);
    SettledExactlyWhen(Normalize(Token(HttpSpelling(h, p) + Tail(dotGit, slashes))));
    SettledExactlyWhen(Normalize(Token(HttpsSpelling(h, p) + Tail(dotGit, slashes))));
    SettledExactlyWhen(Normalize(Token(SshSpelling(h, lead, p) + Tail(dotGit, slashes))));
  }

  lemma PlainIsSettled(h: string, p: string)
    requires PlainHost(h) && PlainPath(p)
    ensures Settled(HttpsUrl(Lower(h), "/" + p))
  {
    HttpsUrlParts(Lower(h), "/" + p);
    HttpsUrlEnd(Lower(h), "/" + p);
    GitSuffixOfTail("/", p);
    PlainUncut(h, p);
    GitSuffixOfTail(Lower(h), "/" + p);
  }

  lemma PlainUncut(h: string, p: string)
    requires PlainHost(h) && PlainPath(p)
    ensures Uncut(AfterAuthority(Lower(h) + ("/" + p)))
  {
    SshAuthority(h, p);
    assert Uncut("/" + p);
  }

  lemma FromHttpsQuery(h: string, path: string, query: string)
    requires PlainHost(h) && path != "" && path[0] == '/' && path[|path| - 1] != '/' && Uncut(path)
    requires query != "" && query[0] == '?'
    ensures FromHttps(h + (path + query)) == HttpsUrl(Lower(h), path)
  {
    AuthorityParts(h, path + query);
    BeforeStop(path, query, {'?', '#'});
    PathUncut(path);
    BeforeNothing(path, {'?', '#'});
    assert DropSlashes(path) == path;
  }

  /** Unsettled URLs need no doubled suffix: any query hides a `.git` from the first pass only. */
  lemma QueryHidesDotGit(h: string, path: string, query: string)
    requires PlainHost(h) && path != "" && path[0] == '/' && EndsWithGit(path)
    requires NoSpace(path) && NoneOf(path, {'?', '#', ';'})
    requires query != "" && query[0] == '?' && NoSpace(query) && query[|query| - 1] !in {'/', 't'}
    ensures Canonical(HTTPS + (h + (path + query))) == Some(HttpsUrl(Lower(h), path))
    ensures !StableUrl(HTTPS + (h + (path + query)))
  {
    hide Stable, Lower, Settled, FromHttps;
    var rest := h + (path + query);
    var url := HTTPS + rest;
    assert path[|path| - 1] == path[|path| - 4..][3];
    FromHttpsQuery(h, path, query);
    LastCharacterKeeps(url);
    CanonOfScheme(rest);
    SchemesNoSpace();
    ConcatNoSpace(path, query);
    ConcatNoSpace(h, path + query);
    ConcatNoSpace(HTTPS, rest);
    CanonicalOfWord(url);
    DotGitIsUnsettled(Lower(h), path);
    WordIsToken(url);
    SettledExactlyWhen(url);
  }

  /** One of them: canonicalising it twice gives two different URLs. */
  lemma UnstableExample()
    ensures Canonical("https://h/p.git?q") == Some("https://h/p.git")
    ensures Canonical("https://h/p.git") == Some("https://h/p")
    ensures !StableUrl("https://h/p.git?q") && StableUrl("https://h/p.git")
  {
    hide Canonical, StableUrl, Lower, HttpsUrl, HttpsSpelling, Tail;
    ExampleWritten();
    ExampleQuery();
    ExamplePlain();
  }

  lemma ExampleWritten()
    ensures "https://h/p.git?q" == HTTPS + ("h" + ("/p.git" + "?q"))
    ensures "https://h/p.git" == HttpsSpelling("h", "p") + Tail(true, 0) == HttpsUrl("h", "/p.git")
    ensures "https://h/p" == HttpsUrl("h", "/p") && Lower("h") == "h" && "/p" == "/" + "p"
  {
  }

  lemma ExampleQuery()
    ensures Canonical(HTTPS + ("h" + ("/p.git" + "?q"))) == Some(HttpsUrl(Lower("h"), "/p.git"))
    ensures !StableUrl(HTTPS + ("h" + ("/p.git" + "?q")))
  {
    hide Canonical, StableUrl;
    QueryHidesDotGit("h", "/p.git", "?q");
  }

  lemma ExamplePlain()
    ensures Canonical(HttpsSpelling("h", "p") + Tail(true, 0)) == Some(HttpsUrl(Lower("h"), "/" + "p"))
    ensures StableUrl(HttpsSpelling("h", "p") + Tail(true, 0))
  {
    hide Canonical, StableUrl;
    SpellingsAgree("h", "p", true, 0, 0);
    SpellingsStable("h", "p", true, 0, 0);
  }

  lemma LastCharacterKeeps(word: string)
    requires word != "" && word[|word| - 1] !in {'/', 't'}
    ensures Normalize(word) == word
  {
    assert |word| >= 4 ==> word[|word| - 4..][3] == word[|word| - 1];
  }

  lemma DotGitIsUnsettled(authority: string, path: string)
    requires EndsWithGit(path)
    ensures !Settled(HttpsUrl(authority, path))
  {
    var y := HttpsUrl(authority, path);
    assert y[|y| - 4..] == path[|path| - 4..];
  }
}
