/** Python string helpers used throughout odpm: stripping, prefixes, case folding and ordering. */
module Text {

  /** The characters `str.strip()` and `str.split()` treat as white space. */
  predicate IsSpace(c: char) {
    || '\U{0009}' <= c <= '\U{000D}'
    || '\U{001C}' <= c <= '\U{0020}'
    || c == '\U{0085}' || c == '\U{00A0}' || c == '\U{1680}'
    || '\U{2000}' <= c <= '\U{200A}'
    || c == '\U{2028}' || c == '\U{2029}' || c == '\U{202F}' || c == '\U{205F}' || c == '\U{3000}'
  }

  /** One by one: tab to carriage return, the four separators, the blank and the other blanks of Unicode. */
  lemma SpacesListed(c: char)
    ensures IsSpace(c) <==> c in {
      '\t', '\n', '\U{000B}', '\U{000C}', '\r', '\U{001C}', '\U{001D}', '\U{001E}', '\U{001F}', ' ',
      '\U{0085}', '\U{00A0}', '\U{1680}', '\U{2000}', '\U{2001}', '\U{2002}', '\U{2003}', '\U{2004}', '\U{2005}',
      '\U{2006}', '\U{2007}', '\U{2008}', '\U{2009}', '\U{200A}', '\U{2028}', '\U{2029}', '\U{202F}', '\U{205F}',
      '\U{3000}' }
  {
  }

  /** `s.lstrip()` */
  function StripLeft(s: string): string {
    if s != "" && IsSpace(s[0]) then StripLeft(s[1..]) else s
  }

  /** `s.rstrip()` */
  function StripRight(s: string): string {
    if s != "" && IsSpace(s[|s| - 1]) then StripRight(s[..|s| - 1]) else s
  }

  /** `s.strip()` */
  function Strip(s: string): string {
    StripRight(StripLeft(s))
  }

  /** A string that `strip()` leaves alone. */
  predicate IsStripped(s: string) {
    s != "" ==> !IsSpace(s[0]) && !IsSpace(s[|s| - 1])
  }

  lemma {:induction false} StripLeftStarts(s: string)
    ensures StripLeft(s) != "" ==> !IsSpace(StripLeft(s)[0])
  {
    if s != "" && IsSpace(s[0]) {
      StripLeftStarts(s[1..]);
    }
  }

  lemma {:induction false} StripRightEnds(s: string)
    ensures StripRight(s) <= s
    ensures StripRight(s) != "" ==> !IsSpace(StripRight(s)[|StripRight(s)| - 1])
  {
    if s != "" && IsSpace(s[|s| - 1]) {
      StripRightEnds(s[..|s| - 1]);
    }
  }

  lemma StripIsStripped(s: string)
    ensures IsStripped(Strip(s))
    ensures IsStripped(s) ==> Strip(s) == s
  {
    StripLeftStarts(s);
    StripRightEnds(StripLeft(s));
  }

  predicate AllSpace(s: string) {
    forall i | 0 <= i < |s| :: IsSpace(s[i])
  }

  lemma {:induction false} StripLeftCuts(s: string) returns (pre: string)
    ensures s == pre + StripLeft(s) && AllSpace(pre)
  {
    pre := "";
    if s != "" && IsSpace(s[0]) {
      var rest := StripLeftCuts(s[1..]);
      pre := [s[0]] + rest;
      assert s == [s[0]] + s[1..];
    }
  }

  lemma {:induction false} StripRightCuts(s: string) returns (post: string)
    ensures s == StripRight(s) + post && AllSpace(post)
  {
    post := "";
    if s != "" && IsSpace(s[|s| - 1]) {
      var rest := StripRightCuts(s[..|s| - 1]);
      post := rest + [s[|s| - 1]];
      assert s == s[..|s| - 1] + [s[|s| - 1]];
    }
  }

  /** Stripping cuts white space off both ends and nothing else. */
  lemma StripCuts(s: string) returns (pre: string, post: string)
    ensures s == pre + Strip(s) + post && AllSpace(pre) && AllSpace(post) && IsStripped(Strip(s))
  {
    pre := StripLeftCuts(s);
    post := StripRightCuts(StripLeft(s));
    StripIsStripped(s);
  }

  lemma {:induction false} StripLeftOff(pre: string, s: string)
    requires AllSpace(pre) && (s != "" ==> !IsSpace(s[0]))
    ensures StripLeft(pre + s) == s
  {
    if pre == "" {
      assert pre + s == s;
    } else {
      assert (pre + s)[1..] == pre[1..] + s;
      StripLeftOff(pre[1..], s);
    }
  }

  lemma {:induction false} StripRightOff(s: string, post: string)
    requires AllSpace(post) && (s != "" ==> !IsSpace(s[|s| - 1]))
    ensures StripRight(s + post) == s
  {
    if post == "" {
      assert s + post == s;
    } else {
      assert (s + post)[..|s + post| - 1] == s + post[..|post| - 1];
      StripRightOff(s, post[..|post| - 1]);
    }
  }

  /** Whatever stripped string stands between white space is what stripping leaves. */
  lemma StripFinds(pre: string, s: string, post: string)
    requires AllSpace(pre) && AllSpace(post) && IsStripped(s)
    ensures Strip(pre + s + post) == s
  {
    if s == "" {
      StripLeftOff(pre + post, "");
      assert pre + s + post == pre + post + "";
    } else {
      StripLeftOff(pre, s + post);
      StripRightOff(s, post);
      assert pre + s + post == pre + (s + post);
    }
  }

  /** `[item.strip() for item in items if item and item.strip()]` */
  function Clean(items: seq<string>): seq<string> {
    if items == [] then []
    else if Strip(items[0]) == "" then Clean(items[1..])
    else [Strip(items[0])] + Clean(items[1..])
  }

  lemma CleanStep(items: seq<string>, i: nat)
    requires i < |items|
    ensures Clean(items[i..]) ==
      if Strip(items[i]) == "" then Clean(items[i + 1..]) else [Strip(items[i])] + Clean(items[i + 1..])
  {
    assert items[i..][1..] == items[i + 1..];
  }

  lemma {:induction false} CleanMembers(items: seq<string>, x: string)
    ensures x in Clean(items) <==> x != "" && exists i :: 0 <= i < |items| && Strip(items[i]) == x
  {
    if items != [] {
      CleanMembers(items[1..], x);
      if x in Clean(items[1..]) {
        var i :| 0 <= i < |items[1..]| && Strip(items[1..][i]) == x;
        assert Strip(items[i + 1]) == x;
      }
      if i :| 0 < i < |items| && Strip(items[i]) == x {
        assert items[1..][i - 1] == items[i];
      }
    }
  }

  lemma CleanIsStripped(items: seq<string>, x: string)
    requires x in Clean(items)
    ensures x != "" && IsStripped(x)
  {
    CleanMembers(items, x);
    var i :| 0 <= i < |items| && Strip(items[i]) == x;
    StripIsStripped(items[i]);
  }

  /** Stripping again changes nothing. */
  lemma {:induction false} CleanFixed(items: seq<string>)
    requires forall i | 0 <= i < |items| :: items[i] != "" && IsStripped(items[i])
    ensures Clean(items) == items
  {
    if items != [] {
      StripIsStripped(items[0]);
      CleanFixed(items[1..]);
    }
  }

  /** `c.lower()` for ASCII letters; other characters are left alone. */
  function LowerChar(c: char): (r: char)
    ensures !('A' <= r <= 'Z')
    ensures r == c || ('A' <= c <= 'Z' && r as int == c as int + 32)
  {
    if 'A' <= c <= 'Z' then (c as int - 'A' as int + 'a' as int) as char else c
  }

  /** `s.lower()` */
  function Lower(s: string): (r: string)
    ensures |r| == |s| && forall i | 0 <= i < |s| :: r[i] == LowerChar(s[i])
  {
    seq(|s|, i requires 0 <= i < |s| => LowerChar(s[i]))
  }

  lemma LowerTwice(s: string)
    ensures Lower(Lower(s)) == Lower(s)
  {
  }

  /** One of the characters is an ASCII capital and the other its small letter, or they are equal. */
  predicate SameLetter(c: char, d: char) {
    || c == d
    || ('A' <= c <= 'Z' && d as int == c as int + 32)
    || ('A' <= d <= 'Z' && c as int == d as int + 32)
  }

  /** Equal but for the case of ASCII letters. */
  predicate SameButForCase(s: string, t: string) {
    |s| == |t| && forall i | 0 <= i < |s| :: SameLetter(s[i], t[i])
  }

  /** Two strings are lowered to the same string exactly when they differ in nothing but ASCII case. */
  lemma LowerAgreesExactlyWhen(s: string, t: string)
    ensures Lower(s) == Lower(t) <==> SameButForCase(s, t)
  {
    if Lower(s) == Lower(t) {
      forall i | 0 <= i < |s| ensures SameLetter(s[i], t[i]) {
        assert LowerChar(s[i]) == Lower(s)[i] == Lower(t)[i] == LowerChar(t[i]);
      }
    }
    if SameButForCase(s, t) {
      forall i | 0 <= i < |s| ensures LowerChar(s[i]) == LowerChar(t[i]) {
        assert SameLetter(s[i], t[i]);
      }
    }
  }
}
