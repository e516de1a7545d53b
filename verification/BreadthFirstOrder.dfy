/** The order in which a work queue visits a directed graph, whatever the graph: roots first, then
    the neighbours of each visited node in turn, each node once. */
module BreadthFirstOrder {
  import opened Sequences

  // ---- Specification: the dependency graph ------------------------------------------------

  /** A walk of exactly `n` edges leads from a root to `url`. */
  ghost predicate Walk<T(!new)>(roots: seq<T>, edges: T -> seq<T>, n: nat, url: T)
    decreases n
  {
    if n == 0 then url in roots
    else exists from :: Walk(roots, edges, n - 1, from) && url in edges(from)
  }

  ghost predicate Reachable<T(!new)>(roots: seq<T>, edges: T -> seq<T>, url: T) {
    exists n: nat :: Walk(roots, edges, n, url)
  }

  /** `a` is no further from the roots than `b`: any walk to `b` is matched by one to `a` that is no longer. */
  ghost predicate NoFurther<T(!new)>(roots: seq<T>, edges: T -> seq<T>, a: T, b: T) {
    forall n: nat :: Walk(roots, edges, n, b) ==> exists m: nat :: m <= n && Walk(roots, edges, m, a)
  }

  // ---- Specification: the queue -------------------------------------------------------------

  /** Everything the URLs in `xs` mention, in order. */
  ghost function Mentions<T(!new)>(edges: T -> seq<T>, xs: seq<T>): seq<T> {
    if xs == [] then []
    else Mentions(edges, xs[..|xs| - 1]) + edges(xs[|xs| - 1])
  }

  /** All URLs queued so far once exactly the URLs in `xs` have been discovered. */
  ghost function Queued<T(!new)>(roots: seq<T>, edges: T -> seq<T>, xs: seq<T>): seq<T> {
    Extend([], roots + Mentions(edges, xs))
  }

  /** `xs` is the queue's own order: it is what discovering `xs` queues, and each entry was
      already queued by the entries before it. */
  ghost predicate BreadthFirst<T(!new)>(roots: seq<T>, edges: T -> seq<T>, xs: seq<T>) {
    && xs == Queued(roots, edges, xs)
    && Supported(roots, edges, xs)
  }

  ghost predicate Supported<T(!new)>(roots: seq<T>, edges: T -> seq<T>, xs: seq<T>) {
    forall k | 0 <= k < |xs| :: k < |Queued(roots, edges, xs[..k])|
  }

  /** A finite set that contains the roots and is closed under `edges`. */
  ghost predicate ClosedUnder<T(!new)>(roots: seq<T>, edges: T -> seq<T>, universe: set<T>) {
    && (forall u | u in roots :: u in universe)
    && (forall u, v | u in universe && v in edges(u) :: v in universe)
  }

  // ---- What a breadth-first order guarantees ------------------------------------------------

  lemma {:induction false} MentionedBy<T(!new)>(edges: T -> seq<T>, xs: seq<T>, u: T) returns (i: nat)
    requires u in Mentions(edges, xs)
    ensures i < |xs| && u in edges(xs[i])
  {
    i := |xs| - 1;
    if u !in edges(xs[i]) {
      i := MentionedBy(edges, xs[..i], u);
    }
  }

  lemma {:induction false} EdgeIsMentioned<T(!new)>(edges: T -> seq<T>, xs: seq<T>, i: nat, u: T)
    requires i < |xs| && u in edges(xs[i])
    ensures u in Mentions(edges, xs)
  {
    if i < |xs| - 1 {
      EdgeIsMentioned(edges, xs[..|xs| - 1], i, u);
    }
  }

  lemma QueuedMembers<T(!new)>(roots: seq<T>, edges: T -> seq<T>, xs: seq<T>, u: T)
    ensures u in Queued(roots, edges, xs) <==> u in roots || u in Mentions(edges, xs)
  {
    ExtendMembers([], roots + Mentions(edges, xs), u);
  }

  lemma QueuedInUniverse<T(!new)>(roots: seq<T>, edges: T -> seq<T>, xs: seq<T>, universe: set<T>, u: T)
    requires ClosedUnder(roots, edges, universe)
    requires Elements(xs) <= universe
    requires u in Queued(roots, edges, xs)
    ensures u in universe
  {
    QueuedMembers(roots, edges, xs, u);
    if u !in roots {
      var i := MentionedBy(edges, xs, u);
      assert xs[i] in Elements(xs);
    }
  }

  lemma {:induction false} MentionsConcat<T(!new)>(edges: T -> seq<T>, a: seq<T>, b: seq<T>)
    ensures Mentions(edges, a + b) == Mentions(edges, a) + Mentions(edges, b)
    decreases |b|
  {
    if b == [] {
      assert a + b == a;
    } else {
      var init := b[..|b| - 1];
      assert (a + b)[..|a + b| - 1] == a + init;
      MentionsConcat(edges, a, init);
    }
  }

  lemma QueuedGrows<T(!new)>(roots: seq<T>, edges: T -> seq<T>, a: seq<T>, b: seq<T>)
    ensures Queued(roots, edges, a + b) == Extend(Queued(roots, edges, a), Mentions(edges, b))
    ensures Queued(roots, edges, a) <= Queued(roots, edges, a + b)
  {
    hide Extend, Mentions;
    MentionsConcat(edges, a, b);
    var ma, mb := Mentions(edges, a), Mentions(edges, b);
    assert roots + (ma + mb) == (roots + ma) + mb;
    ExtendConcat([], roots + ma, mb);
  }

  lemma PrefixQueued<T(!new)>(roots: seq<T>, edges: T -> seq<T>, xs: seq<T>, k: nat)
    requires BreadthFirst(roots, edges, xs)
    requires k <= |xs|
    ensures Queued(roots, edges, xs[..k]) <= xs
  {
    assert xs == xs[..k] + xs[k..];
    QueuedGrows(roots, edges, xs[..k], xs[k..]);
  }

  /** Every entry is a root or is mentioned by an earlier entry. */
  lemma EntryHasParent<T(!new)>(roots: seq<T>, edges: T -> seq<T>, xs: seq<T>, k: nat)
    requires BreadthFirst(roots, edges, xs)
    requires k < |xs|
    ensures xs[k] in roots || exists i :: 0 <= i < k && xs[k] in edges(xs[i])
  {
    PrefixQueued(roots, edges, xs, k);
    var q := Queued(roots, edges, xs[..k]);
    assert q[k] == xs[k];
    QueuedMembers(roots, edges, xs[..k], xs[k]);
    if xs[k] !in roots {
      var i := MentionedBy(edges, xs[..k], xs[k]);
    }
  }

  /** The roots come first, in the given order and without repetition. */
  lemma RootsLead<T(!new)>(roots: seq<T>, edges: T -> seq<T>, xs: seq<T>)
    requires BreadthFirst(roots, edges, xs)
    ensures Extend([], roots) <= xs
  {
    PrefixQueued(roots, edges, xs, 0);
    assert roots + Mentions(edges, xs[..0]) == roots;
  }

  /** The entries are exactly the URLs reachable from the roots, each once. */
  lemma ExactlyReachable<T(!new)>(roots: seq<T>, edges: T -> seq<T>, xs: seq<T>)
    requires BreadthFirst(roots, edges, xs)
    ensures NoDuplicates(xs)
    ensures forall u :: u in xs <==> Reachable(roots, edges, u)
  {
    ExtendNoDuplicates([], roots + Mentions(edges, xs));
    forall u | u in xs ensures Reachable(roots, edges, u) {
      var k :| 0 <= k < |xs| && xs[k] == u;
      EntryReachable(roots, edges, xs, k);
    }
    forall u | Reachable(roots, edges, u) ensures u in xs {
      var n: nat :| Walk(roots, edges, n, u);
      ReachableQueued(roots, edges, xs, n, u);
    }
  }

  /** Only graphs whose reachable part is finite have such an order. */
  lemma OrderedIsClosed<T(!new)>(roots: seq<T>, edges: T -> seq<T>, xs: seq<T>)
    requires BreadthFirst(roots, edges, xs)
    ensures ClosedUnder(roots, edges, Elements(xs))
  {
    forall u | u in roots ensures u in xs {
      QueuedMembers(roots, edges, xs, u);
    }
    forall u, v | u in xs && v in edges(u) ensures v in xs {
      var i :| 0 <= i < |xs| && xs[i] == u;
      EdgeIsMentioned(edges, xs, i, v);
      QueuedMembers(roots, edges, xs, v);
    }
  }

  lemma {:induction false} EntryReachable<T(!new)>(roots: seq<T>, edges: T -> seq<T>, xs: seq<T>, k: nat)
    requires BreadthFirst(roots, edges, xs)
    requires k < |xs|
    ensures Reachable(roots, edges, xs[k])
  {
    EntryHasParent(roots, edges, xs, k);
    if xs[k] in roots {
      assert Walk(roots, edges, 0, xs[k]);
    } else {
      var i :| 0 <= i < k && xs[k] in edges(xs[i]);
      EntryReachable(roots, edges, xs, i);
      var n: nat :| Walk(roots, edges, n, xs[i]);
      assert Walk(roots, edges, n + 1, xs[k]);
    }
  }

  lemma {:induction false} ReachableQueued<T(!new)>(roots: seq<T>, edges: T -> seq<T>, xs: seq<T>, n: nat, u: T)
    requires BreadthFirst(roots, edges, xs)
    requires Walk(roots, edges, n, u)
    ensures u in xs
  {
    if n == 0 {
      QueuedMembers(roots, edges, xs, u);
    } else {
      var from :| Walk(roots, edges, n - 1, from) && u in edges(from);
      ReachableQueued(roots, edges, xs, n - 1, from);
      var i :| 0 <= i < |xs| && xs[i] == from;
      EdgeIsMentioned(edges, xs, i, u);
      QueuedMembers(roots, edges, xs, u);
    }
  }

  /** Shortest-path distance from the roots never decreases along the order. */
  lemma LevelOrder<T(!new)>(roots: seq<T>, edges: T -> seq<T>, xs: seq<T>, i: nat, j: nat)
    requires BreadthFirst(roots, edges, xs)
    requires i <= j < |xs|
    ensures NoFurther(roots, edges, xs[i], xs[j])
  {
    forall n: nat | Walk(roots, edges, n, xs[j])
      ensures exists m: nat :: m <= n && Walk(roots, edges, m, xs[i])
    {
      var m := ShorterWalk(roots, edges, xs, i, j, n);
    }
  }

  lemma {:induction false} ShorterWalk<T(!new)>(roots: seq<T>, edges: T -> seq<T>, xs: seq<T>,
                                       i: nat, j: nat, n: nat) returns (m: nat)
    requires BreadthFirst(roots, edges, xs)
    requires i <= j < |xs|
    requires Walk(roots, edges, n, xs[j])
    ensures m <= n && Walk(roots, edges, m, xs[i])
    decreases n
  {
    if n == 0 {
      RootsLead(roots, edges, xs);
      RootIndex(roots, edges, xs, i, j);
      m := 0;
    } else {
      var from :| Walk(roots, edges, n - 1, from) && xs[j] in edges(from);
      ReachableQueued(roots, edges, xs, n - 1, from);
      var p :| 0 <= p < |xs| && xs[p] == from;
      EarlierParent(roots, edges, xs, i, j, p);
      if xs[i] in roots {
        m := 0;
      } else {
        var q :| 0 <= q <= p && xs[i] in edges(xs[q]);
        m := ShorterWalk(roots, edges, xs, q, p, n - 1);
        m := m + 1;
      }
    }
  }

  lemma IndexInPrefix<T(!new)>(roots: seq<T>, edges: T -> seq<T>, xs: seq<T>, prefix: seq<T>, j: nat)
    requires BreadthFirst(roots, edges, xs)
    requires prefix <= xs && j < |xs| && xs[j] in prefix
    ensures j < |prefix|
  {
    ExtendNoDuplicates([], roots + Mentions(edges, xs));
    var k :| 0 <= k < |prefix| && prefix[k] == xs[j];
    assert xs[k] == xs[j];
  }

  /** Whatever stands before a root is a root. */
  lemma RootIndex<T(!new)>(roots: seq<T>, edges: T -> seq<T>, xs: seq<T>, i: nat, j: nat)
    requires BreadthFirst(roots, edges, xs)
    requires i <= j < |xs| && xs[j] in roots
    ensures xs[i] in roots
  {
    RootsLead(roots, edges, xs);
    var lead := Extend([], roots);
    ExtendMembers([], roots, xs[j]);
    IndexInPrefix(roots, edges, xs, lead, j);
    ExtendMembers([], roots, lead[i]);
  }

  /** If `xs[p]` mentions `xs[j]`, then everything up to `j` is a root or is mentioned by `xs[p]` or earlier. */
  lemma EarlierParent<T(!new)>(roots: seq<T>, edges: T -> seq<T>, xs: seq<T>, i: nat, j: nat, p: nat)
    requires BreadthFirst(roots, edges, xs)
    requires i <= j < |xs| && p < |xs|
    requires xs[j] in edges(xs[p])
    ensures xs[i] in roots || exists q :: 0 <= q <= p && xs[i] in edges(xs[q])
  {
    var head := xs[..p + 1];
    EdgeIsMentioned(edges, head, p, xs[j]);
    PrefixQueued(roots, edges, xs, p + 1);
    var queued := Queued(roots, edges, head);
    QueuedMembers(roots, edges, head, xs[j]);
    IndexInPrefix(roots, edges, xs, queued, j);
    QueuedMembers(roots, edges, head, queued[i]);
    if xs[i] !in roots {
      var q := MentionedBy(edges, head, xs[i]);
    }
  }

  /** There is only one breadth-first order. */
  lemma BreadthFirstUnique<T(!new)>(roots: seq<T>, edges: T -> seq<T>, xs: seq<T>, ys: seq<T>)
    requires BreadthFirst(roots, edges, xs) && BreadthFirst(roots, edges, ys)
    ensures xs == ys
  {
    CommonPrefix(roots, edges, xs, ys, |xs|);
    CommonPrefix(roots, edges, ys, xs, |ys|);
  }

  lemma {:induction false} CommonPrefix<T(!new)>(roots: seq<T>, edges: T -> seq<T>, xs: seq<T>, ys: seq<T>, k: nat)
    requires BreadthFirst(roots, edges, xs) && BreadthFirst(roots, edges, ys)
    requires k <= |xs|
    ensures k <= |ys| && xs[..k] == ys[..k]
  {
    if k > 0 {
      CommonPrefix(roots, edges, xs, ys, k - 1);
      PrefixQueued(roots, edges, xs, k - 1);
      PrefixQueued(roots, edges, ys, k - 1);
      assert xs[k - 1] == Queued(roots, edges, xs[..k - 1])[k - 1] == ys[k - 1];
    }
  }

  // ---- The state of the work queue ---------------------------------------------------------------

  /** `visited` has been discovered in order and `waiting` is what is queued behind it. */
  ghost predicate Progress<T(!new)>(roots: seq<T>, edges: T -> seq<T>, visited: seq<T>, waiting: seq<T>) {
    && visited + waiting == Queued(roots, edges, visited)
    && Supported(roots, edges, visited)
  }

  lemma ProgressStarts<T(!new)>(roots: seq<T>, edges: T -> seq<T>)
    ensures Progress(roots, edges, [], Extend([], roots))
  {
    assert roots + Mentions(edges, []) == roots;
    assert [] + Extend([], roots) == Extend([], roots);
  }

  lemma ProgressEnds<T(!new)>(roots: seq<T>, edges: T -> seq<T>, visited: seq<T>)
    requires Progress(roots, edges, visited, [])
    ensures BreadthFirst(roots, edges, visited)
  {
    assert visited + [] == visited;
  }

  /** The node at the head of the queue has not been visited, and lies in any closed set. */
  lemma HeadIsNew<T(!new)>(roots: seq<T>, edges: T -> seq<T>, visited: seq<T>, waiting: seq<T>, universe: set<T>)
    requires Progress(roots, edges, visited, waiting) && waiting != []
    requires ClosedUnder(roots, edges, universe) && Elements(visited) <= universe
    ensures waiting[0] !in visited && waiting[0] in universe
  {
    ExtendNoDuplicates([], roots + Mentions(edges, visited));
    var all := visited + waiting;
    assert all[|visited|] == waiting[0] && all[..|visited|] == visited;
    NotInPrefix(all, |visited|);
    QueuedInUniverse(roots, edges, visited, universe, waiting[0]);
  }

  /** Visiting the head of the queue and queueing its new neighbours is progress. */
  lemma ProgressStep<T(!new)>(roots: seq<T>, edges: T -> seq<T>, visited: seq<T>, waiting: seq<T>, waiting': seq<T>)
    requires Progress(roots, edges, visited, waiting) && waiting != []
    requires visited + [waiting[0]] + waiting'
          == Extend(visited + [waiting[0]] + waiting[1..], edges(waiting[0]))
    ensures Progress(roots, edges, visited + [waiting[0]], waiting')
  {
    var next := waiting[0];
    MoveHead(visited, waiting);
    QueuedGrows(roots, edges, visited, [next]);
    assert [next][..0] == [] && Mentions(edges, [next]) == [] + edges(next) == edges(next);
    var xs := visited + [next];
    forall k | 0 <= k < |xs| ensures k < |Queued(roots, edges, xs[..k])| {
      assert xs[..k] == visited[..k];
      assert visited[..|visited|] == visited;
    }
  }
}
