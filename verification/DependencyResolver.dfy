/** Breadth-first resolution of transitive dependencies (dependency_resolver.py). */
module DependencyResolver {
  import opened Results
  import opened Text
  import opened Sequences
  import opened BreadthFirstOrder

  /** A nested odpm.json found in a dependency; the resolver only looks at `sourcePath`. */
  datatype Fragment = Fragment(sourcePath: string, dependencies: seq<string>, requirements: seq<string>)

  datatype Discovery = Discovery(urls: seq<string>, requirements: seq<string>, fragment: Option<Fragment>)

  datatype Resolution = Resolution(urls: seq<string>, requirements: seq<string>, fragments: seq<Fragment>)

  /** The checkout-and-inspect callback. */
  type Discover = string -> Discovery

  /** The dependency graph: what a URL's discovery mentions, stripped. */
  function Edges(discover: Discover): string -> seq<string> {
    url => Clean(discover(url).urls)
  }

  // ---- Specification: collected requirements and fragments ------------------------------------

  function AllRequirements(discover: Discover, xs: seq<string>): seq<string> {
    if xs == [] then []
    else AllRequirements(discover, xs[..|xs| - 1]) + Clean(discover(xs[|xs| - 1]).requirements)
  }

  /** Keep a fragment unless its path is already covered. */
  function KeepFragment(kept: seq<Fragment>, fragment: Option<Fragment>): seq<Fragment> {
    if fragment.Some? && forall f | f in kept :: f.sourcePath != fragment.value.sourcePath
    then kept + [fragment.value] else kept
  }

  function FirstFragments(discover: Discover, xs: seq<string>): seq<Fragment> {
    if xs == [] then []
    else KeepFragment(FirstFragments(discover, xs[..|xs| - 1]), discover(xs[|xs| - 1]).fragment)
  }

  predicate FragmentAt(discover: Discover, xs: seq<string>, i: nat, f: Fragment) {
    i < |xs| && discover(xs[i]).fragment == Some(f)
  }

  /** `f` comes from `xs[i]` and no earlier URL supplied its path. */
  ghost predicate EarliestAt(discover: Discover, xs: seq<string>, i: nat, f: Fragment) {
    && FragmentAt(discover, xs, i, f)
    && forall j: nat, g | j < i && FragmentAt(discover, xs, j, g) :: g.sourcePath != f.sourcePath
  }

  /** The kept fragments are those of the earliest URL that supplies each path. */
  lemma {:induction false} FirstFragmentsAreFirst(discover: Discover, xs: seq<string>)
    ensures forall f :: f in FirstFragments(discover, xs) <==> exists i: nat :: EarliestAt(discover, xs, i, f)
  {
    if xs != [] {
      var init, n := xs[..|xs| - 1], |xs| - 1;
      FirstFragmentsAreFirst(discover, init);
      FragmentPathsCovered(discover, init);
      var kept := FirstFragments(discover, init);
      assert forall i: nat, f | i < n :: FragmentAt(discover, init, i, f) == FragmentAt(discover, xs, i, f);
      assert forall i: nat, f | i < n :: EarliestAt(discover, init, i, f) == EarliestAt(discover, xs, i, f);
      forall f | f in FirstFragments(discover, xs) ensures exists i: nat :: EarliestAt(discover, xs, i, f) {
        if f in kept {
          var i: nat :| EarliestAt(discover, init, i, f);
          assert EarliestAt(discover, xs, i, f);
        } else {
          assert EarliestAt(discover, xs, n, f);
        }
      }
      forall f, i: nat | EarliestAt(discover, xs, i, f) ensures f in FirstFragments(discover, xs) {
        if i < n {
          assert EarliestAt(discover, init, i, f);
        } else {
          forall g | g in kept ensures g.sourcePath != f.sourcePath {
            var k: nat :| EarliestAt(discover, init, k, g);
            assert FragmentAt(discover, xs, k, g);
          }
        }
      }
    }
  }

  lemma {:induction false} FragmentPathsCovered(discover: Discover, xs: seq<string>)
    ensures forall i: nat, f | FragmentAt(discover, xs, i, f) ::
      exists g :: g in FirstFragments(discover, xs) && g.sourcePath == f.sourcePath
    ensures forall i, j | 0 <= i < j < |FirstFragments(discover, xs)| ::
      FirstFragments(discover, xs)[i].sourcePath != FirstFragments(discover, xs)[j].sourcePath
  {
    if xs != [] {
      var init, n := xs[..|xs| - 1], |xs| - 1;
      FragmentPathsCovered(discover, init);
      assert FirstFragments(discover, init) <= FirstFragments(discover, xs);
      forall i: nat, f | FragmentAt(discover, xs, i, f)
        ensures exists g :: g in FirstFragments(discover, xs) && g.sourcePath == f.sourcePath
      {
        if i < n {
          assert FragmentAt(discover, init, i, f);
        } else if f !in FirstFragments(discover, xs) {
          assert !forall g | g in FirstFragments(discover, init) :: g.sourcePath != f.sourcePath;
        } else {
          assert f in FirstFragments(discover, xs) && f.sourcePath == f.sourcePath;
        }
      }
    }
  }

  // ---- The algorithm -----------------------------------------------------------------------

  /** `_append_unique_strings` */
  method AppendUniqueStrings(target: seq<string>, items: seq<string>) returns (result: seq<string>)
    ensures result == Extend(target, Clean(items))
  {
    result := target;
    var seen := Elements(target);
    var i := 0;
    while i < |items|
      invariant 0 <= i <= |items|
      invariant seen == Elements(result)
      invariant Extend(result, Clean(items[i..])) == Extend(target, Clean(items))
    {
      var text := Strip(items[i]);
      CleanStep(items, i);
      if text != "" && text !in seen {
        ElementsAppend(result, text);
        seen := seen + {text};
        result := result + [text];
      }
      i := i + 1;
    }
  }

  /** The nested `enqueue`: `queued` is every URL ever queued, `queue` those still waiting. */
  method Enqueue(queue: seq<string>, queued: set<string>, ghost done: seq<string>, urls: seq<string>)
    returns (queue': seq<string>, queued': set<string>)
    requires queued == Elements(done + queue)
    ensures queued' == Elements(done + queue')
    ensures done + queue' == Extend(done + queue, Clean(urls))
  {
    queue', queued' := queue, queued;
    var i := 0;
    while i < |urls|
      invariant 0 <= i <= |urls|
      invariant queued' == Elements(done + queue')
      invariant Extend(done + queue', Clean(urls[i..])) == Extend(done + queue, Clean(urls))
    {
      var normalized := Strip(urls[i]);
      CleanStep(urls, i);
      if normalized != "" && normalized !in queued' {
        AppendLast(done, queue', normalized);
        ElementsAppend(done + queue', normalized);
        queued' := queued' + {normalized};
        queue' := queue' + [normalized];
      }
      i := i + 1;
    }
  }

  ghost predicate CoversPaths(seenPaths: set<string>, fragments: seq<Fragment>) {
    forall p :: p in seenPaths <==> exists f :: f in fragments && f.sourcePath == p
  }

  /** The nested `record_discovery` */
  method RecordDiscovery(requirements: seq<string>, fragments: seq<Fragment>, seenPaths: set<string>,
                         discovery: Discovery)
    returns (requirements': seq<string>, fragments': seq<Fragment>, seenPaths': set<string>)
    requires CoversPaths(seenPaths, fragments)
    ensures requirements' == Extend(requirements, Clean(discovery.requirements))
    ensures fragments' == KeepFragment(fragments, discovery.fragment)
    ensures CoversPaths(seenPaths', fragments')
  {
    requirements' := AppendUniqueStrings(requirements, discovery.requirements);
    fragments', seenPaths' := fragments, seenPaths;
    if discovery.fragment.Some? && discovery.fragment.value.sourcePath !in seenPaths {
      var fragment := discovery.fragment.value;
      seenPaths' := seenPaths + {fragment.sourcePath};
      fragments' := fragments + [fragment];
      assert fragment in fragments';
    }
  }

  /** What one more discovery adds to the collected requirements and fragments. */
  lemma CollectedStep(discover: Discover, xs: seq<string>, next: string)
    ensures Extend([], AllRequirements(discover, xs + [next]))
      == Extend(Extend([], AllRequirements(discover, xs)), Clean(discover(next).requirements))
    ensures FirstFragments(discover, xs + [next])
      == KeepFragment(FirstFragments(discover, xs), discover(next).fragment)
  {
    assert (xs + [next])[..|xs|] == xs;
    ExtendConcat([], AllRequirements(discover, xs), Clean(discover(next).requirements));
  }

  /** Some item, stripped, is `x`, which is not blank. */
  ghost predicate Includes(items: seq<string>, x: string) {
    x != "" && exists i :: 0 <= i < |items| && Strip(items[i]) == x
  }

  /** The collected requirements are those that some discovery mentions. */
  lemma {:induction false} RequirementsIncluded(discover: Discover, xs: seq<string>, x: string)
    ensures x in AllRequirements(discover, xs) <==> exists u :: u in xs && Includes(discover(u).requirements, x)
  {
    hide Clean, Includes;
    if xs != [] {
      var n := |xs| - 1;
      RequirementsIncluded(discover, xs[..n], x);
      IncludedClean(discover(xs[n]).requirements, x);
      assert xs == xs[..n] + [xs[n]];
      ConcatMembers(AllRequirements(discover, xs[..n]), Clean(discover(xs[n]).requirements), x);
    }
  }

  lemma UrlsResolved(seeds: seq<string>, discover: Discover, extras: Option<seq<string>>, xs: seq<string>)
    requires BreadthFirst(Roots(seeds, extras), Edges(discover), xs)
    ensures ResolvedUrls(seeds, discover, extras, xs)
  {
    hide BreadthFirst, Includes, Clean;
    var roots, edges := Roots(seeds, extras), Edges(discover);
    OrderedIsClosed(roots, edges, xs);
    ExactlyReachable(roots, edges, xs);
    forall x, u | u in xs && Includes(discover(u).urls, x) ensures x in xs {
      IncludedClean(discover(u).urls, x);
      assert u in Elements(xs) && x in edges(u);
      assert x in Elements(xs);
    }
    forall x | Includes(seeds, x) || (extras.Some? && Includes(extras.value, x)) ensures x in xs {
      RootsIncluded(seeds, extras, x);
      assert x in Elements(xs);
    }
    forall k | 0 <= k < |xs| ensures MentionedBefore(seeds, discover, extras, xs, k) {
      EntryHasParent(roots, edges, xs, k);
      RootsIncluded(seeds, extras, xs[k]);
      if i :| 0 <= i < k && xs[k] in edges(xs[i]) {
        IncludedClean(discover(xs[i]).urls, xs[k]);
      }
    }
  }

  lemma IncludedClean(items: seq<string>, x: string)
    ensures Includes(items, x) <==> x in Clean(items)
  {
    CleanMembers(items, x);
  }

  lemma RootsIncluded(seeds: seq<string>, extras: Option<seq<string>>, x: string)
    ensures x in Roots(seeds, extras) <==> Includes(seeds, x) || (extras.Some? && Includes(extras.value, x))
  {
    hide Clean, Includes;
    IncludedClean(seeds, x);
    if extras.Some? {
      IncludedClean(extras.value, x);
    }
  }

  /** `xs[k]` is given from outside or mentioned by an earlier URL. */
  ghost predicate MentionedBefore(seeds: seq<string>, discover: Discover, extras: Option<seq<string>>, xs: seq<string>, k: int)
    requires 0 <= k < |xs|
  {
    || Includes(seeds, xs[k]) || (extras.Some? && Includes(extras.value, xs[k]))
    || exists i :: 0 <= i < k && Includes(discover(xs[i]).urls, xs[k])
  }

  /** Every URL that is given, or that a resolved URL's discovery mentions, is resolved, and no other. */
  ghost predicate ResolvedUrls(seeds: seq<string>, discover: Discover, extras: Option<seq<string>>, xs: seq<string>) {
    && NoDuplicates(xs)
    && (forall x | Includes(seeds, x) || (extras.Some? && Includes(extras.value, x)) :: x in xs)
    && (forall x, u | u in xs && Includes(discover(u).urls, x) :: x in xs)
    && (forall k | 0 <= k < |xs| :: MentionedBefore(seeds, discover, extras, xs, k))
  }

  /** Stripped seeds, then stripped initial extras. */
  function Roots(seeds: seq<string>, extras: Option<seq<string>>): seq<string> {
    Clean(seeds) + if extras.Some? then Clean(extras.value) else []
  }

  /** `resolve_dependencies`. Besides the result it reports the sequence of `discover` calls made
      and how often the already-processed guard was taken. */
  method ResolveDependencies(seeds: seq<string>, discover: Discover, extras: Option<seq<string>>,
                             ghost universe: set<string>)
    returns (result: Resolution, calls: seq<string>, skips: int)
    requires ClosedUnder(Roots(seeds, extras), Edges(discover), universe)
    ensures BreadthFirst(Roots(seeds, extras), Edges(discover), result.urls)
    ensures ResolvedUrls(seeds, discover, extras, result.urls)
    ensures calls == result.urls && skips == 0
    ensures result.requirements == Extend([], AllRequirements(discover, result.urls))
    ensures forall x :: x in result.requirements <==> exists u :: u in result.urls && Includes(discover(u).requirements, x)
    ensures result.fragments == FirstFragments(discover, result.urls)
  {
    ghost var roots := Roots(seeds, extras);
    var queue, queued, ordered, processed := [], {}, [], {};
    var requirements, fragments, seenPaths := [], [], {};
    calls, skips := [], 0;

    queue, queued := Enqueue(queue, queued, [], seeds);
    assert [] + queue == queue;
    if extras.Some? {
      queue, queued := Enqueue(queue, queued, [], extras.value);
      assert [] + queue == queue;
      ExtendConcat([], Clean(seeds), Clean(extras.value));
    } else {
      assert roots == Clean(seeds);
    }
    ProgressStarts(roots, Edges(discover));

    while queue != []
      invariant Progress(roots, Edges(discover), ordered, queue)
      invariant queued == Elements(ordered + queue)
      invariant processed == Elements(ordered) <= universe
      invariant calls == ordered && skips == 0
      invariant requirements == Extend([], AllRequirements(discover, ordered))
      invariant fragments == FirstFragments(discover, ordered)
      invariant CoversPaths(seenPaths, fragments)
      decreases universe - processed
    {
      ghost var before, waiting := ordered, queue;
      HeadIsNew(roots, Edges(discover), ordered, queue, universe);
      var dependency := queue[0];
      queue := queue[1..];
      if dependency in processed {
        skips := skips + 1;
        continue;
      }
      ElementsAppend(ordered, dependency);
      processed := processed + {dependency};
      ordered := ordered + [dependency];
      calls := calls + [dependency];
      var discovery := discover(dependency);
      requirements, fragments, seenPaths := RecordDiscovery(requirements, fragments, seenPaths, discovery);
      CollectedStep(discover, before, dependency);
      MoveHead(before, waiting);
      queue, queued := Enqueue(queue, queued, ordered, discovery.urls);
      ProgressStep(roots, Edges(discover), before, waiting, queue);
    }
    ProgressEnds(roots, Edges(discover), ordered);
    UrlsResolved(seeds, discover, extras, ordered);
    forall x ensures x in requirements <==> exists u :: u in ordered && Includes(discover(u).requirements, x) {
      ExtendMembers([], AllRequirements(discover, ordered), x);
      RequirementsIncluded(discover, ordered, x);
    }
    result := Resolution(ordered, requirements, fragments);
  }

  /** The callback `resolve_dependency_urls` wraps around its OCA lookup. */
  function UrlsOnly(ocaUrls: string -> seq<string>): Discover {
    url => Discovery(ocaUrls(url), [], None)
  }

  /** `resolve_dependency_urls`: URL discovery alone, with no requirements or fragments. */
  method ResolveDependencyUrls(seeds: seq<string>, ocaUrls: string -> seq<string>, extras: Option<seq<string>>,
                               ghost universe: set<string>)
    returns (urls: seq<string>)
    requires ClosedUnder(Roots(seeds, extras), Edges(UrlsOnly(ocaUrls)), universe)
    ensures BreadthFirst(Roots(seeds, extras), Edges(UrlsOnly(ocaUrls)), urls)
    ensures forall u :: u in urls <==> Reachable(Roots(seeds, extras), Edges(UrlsOnly(ocaUrls)), u)
    ensures forall x, u | u in urls && Includes(ocaUrls(u), x) :: x in urls
  {
    var result, _, _ := ResolveDependencies(seeds, UrlsOnly(ocaUrls), extras, universe);
    urls := result.urls;
    ExactlyReachable(Roots(seeds, extras), Edges(UrlsOnly(ocaUrls)), urls);
  }
}
