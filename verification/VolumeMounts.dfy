/** Volume mount strings `source:target[:options]` and their redirection to the physical postgres volume
    (`_rewrite_volume_mount` in compose/service_names.py). */
module VolumeMounts {
  import opened ComposeDocument

  function IndexOf(s: string, c: char): (k: nat)
    requires c in s
    ensures k < |s| && s[k] == c
  {
    if s[0] == c then 0 else 1 + IndexOf(s[1..], c)
  }

  /** `s.split(sep, limit)` */
  function Split(s: string, sep: char, limit: nat): (parts: seq<string>)
    ensures parts != []
    decreases limit
  {
    if limit == 0 || sep !in s then [s]
    else [s[..IndexOf(s, sep)]] + Split(s[IndexOf(s, sep) + 1..], sep, limit - 1)
  }

  /** `sep.join(parts)` */
  function Join(parts: seq<string>, sep: char): string
    requires parts != []
  {
    if |parts| == 1 then parts[0] else parts[0] + [sep] + Join(parts[1..], sep)
  }

  lemma JoinCons(head: string, tail: seq<string>, sep: char)
    requires tail != []
    ensures Join([head] + tail, sep) == head + [sep] + Join(tail, sep)
  {
    assert ([head] + tail)[1..] == tail;
  }

  lemma JoinOne(s: string, sep: char)
    ensures Join([s], sep) == s
  {
  }

  lemma CutAt(s: string, k: nat)
    requires k < |s|
    ensures s == s[..k] + [s[k]] + s[k + 1..]
  {
  }

  lemma JoinHead(head: string, rest: seq<string>, sep: char, s: string, k: nat)
    requires rest != [] && k < |s| && head == s[..k] && s[k] == sep && Join(rest, sep) == s[k + 1..]
    ensures Join([head] + rest, sep) == s
  {
    JoinCons(head, rest, sep);
    CutAt(s, k);
  }

  /** Joining what was split gives the string back. */
  lemma {:induction false} JoinSplit(s: string, sep: char, limit: nat)
    ensures Join(Split(s, sep, limit), sep) == s
    decreases limit
  {
    hide Join;
    JoinOne(s, sep);
    if limit > 0 && sep in s {
      var k := IndexOf(s, sep);
      JoinSplit(s[k + 1..], sep, limit - 1);
      JoinHead(s[..k], Split(s[k + 1..], sep, limit - 1), sep, s, k);
    }
  }

  /** What stands before the first colon: the volume or path being mounted. */
  function MountSource(mount: string): string {
    if ':' in mount then mount[..IndexOf(mount, ':')] else mount
  }

  function Redirect(mount: string, physical: string): string {
    var parts := Split(mount, ':', 2);
    if parts[0] == LOGICAL_VOLUME then Join(parts[0 := physical], ':') else mount
  }

  /** Replacing the first part of a split mount replaces its source. */
  lemma ReplacedSource(mount: string, physical: string)
    ensures var parts := Split(mount, ':', 2);
      parts[0] == MountSource(mount) && Join(parts[0 := physical], ':') == physical + mount[|MountSource(mount)|..]
  {
    hide Join;
    if ':' in mount {
      var k := IndexOf(mount, ':');
      var rest := Split(mount[k + 1..], ':', 1);
      JoinSplit(mount[k + 1..], ':', 1);
      assert ([mount[..k]] + rest)[0 := physical] == [physical] + rest;
      JoinCons(physical, rest, ':');
      assert mount[k..] == [':'] + mount[k + 1..];
      assert physical + [':'] + mount[k + 1..] == physical + ([':'] + mount[k + 1..]);
    } else {
      assert [mount][0 := physical] == [physical];
      JoinOne(physical, ':');
      assert physical + mount[|mount|..] == physical;
    }
  }

  /** Only mounts of the logical postgres volume are redirected, with their tail unchanged. */
  lemma RedirectChangesSourceOnly(mount: string, physical: string)
    ensures Redirect(mount, physical) ==
      if MountSource(mount) == LOGICAL_VOLUME then physical + mount[|MountSource(mount)|..] else mount
  {
    hide Join, Split;
    ReplacedSource(mount, physical);
  }

  lemma {:induction false} FirstIndex(s: string, c: char, k: nat)
    requires k < |s| && s[k] == c && c !in s[..k]
    ensures c in s && IndexOf(s, c) == k
  {
    if k > 0 {
      assert s[0] == s[..k][0];
      assert s[1..][..k - 1] == s[..k][1..];
      FirstIndex(s[1..], c, k - 1);
    }
  }

  lemma SourceOfConcat(source: string, tail: string)
    requires ':' !in source && (tail != "" ==> tail[0] == ':')
    ensures MountSource(source + tail) == source
  {
    var mount := source + tail;
    if tail == "" {
      assert mount == source;
    } else {
      assert mount[..|source|] == source;
      FirstIndex(mount, ':', |source|);
    }
  }

  /** After redirection a mount of the logical volume mounts the physical one. */
  lemma RedirectedSource(mount: string, physical: string)
    requires ':' !in physical
    ensures MountSource(Redirect(mount, physical)) ==
      if MountSource(mount) == LOGICAL_VOLUME then physical else MountSource(mount)
  {
    RedirectChangesSourceOnly(mount, physical);
    if MountSource(mount) == LOGICAL_VOLUME {
      SourceOfConcat(physical, mount[|MountSource(mount)|..]);
    }
  }
}
