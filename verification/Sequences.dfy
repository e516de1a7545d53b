/** Duplicate-free accumulation, as odpm does with a list and a `seen` set. */
module Sequences {

  predicate NoDuplicates<T(==)>(s: seq<T>) {
    forall i, j | 0 <= i < j < |s| :: s[i] != s[j]
  }

  function Elements<T(==)>(s: seq<T>): set<T> {
    set x | x in s
  }

  lemma ElementsAppend<T>(s: seq<T>, x: T)
    ensures Elements(s + [x]) == Elements(s) + {x}
  {
  }

  /** Append the items of `items` that are not yet present, in order. */
  function Extend<T(==)>(acc: seq<T>, items: seq<T>): (r: seq<T>)
    ensures acc <= r
    decreases |items|
  {
    if items == [] then acc
    else Extend(if items[0] in acc then acc else acc + [items[0]], items[1..])
  }

  lemma {:induction false} ExtendMembers<T>(acc: seq<T>, items: seq<T>, x: T)
    ensures x in Extend(acc, items) <==> x in acc || x in items
    decreases |items|
  {
    if items != [] {
      assert items == [items[0]] + items[1..];
      ExtendMembers(if items[0] in acc then acc else acc + [items[0]], items[1..], x);
    }
  }

  lemma {:induction false} ExtendNoDuplicates<T>(acc: seq<T>, items: seq<T>)
    requires NoDuplicates(acc)
    ensures NoDuplicates(Extend(acc, items))
    decreases |items|
  {
    if items != [] {
      ExtendNoDuplicates(if items[0] in acc then acc else acc + [items[0]], items[1..]);
    }
  }

  lemma {:induction false} ExtendConcat<T>(acc: seq<T>, a: seq<T>, b: seq<T>)
    ensures Extend(acc, a + b) == Extend(Extend(acc, a), b)
    decreases |a|
  {
    if a == [] {
      assert a + b == b;
    } else {
      assert (a + b)[0] == a[0] && (a + b)[1..] == a[1..] + b;
      ExtendConcat(if a[0] in acc then acc else acc + [a[0]], a[1..], b);
    }
  }

  lemma MoveHead<T>(a: seq<T>, b: seq<T>)
    requires b != []
    ensures a + [b[0]] + b[1..] == a + b
  {
  }

  lemma AppendLast<T>(a: seq<T>, b: seq<T>, x: T)
    ensures a + (b + [x]) == a + b + [x]
  {
  }

  lemma AppendCons<T>(a: seq<T>, x: T, b: seq<T>)
    ensures a + ([x] + b) == a + [x] + b
  {
  }

  lemma NoDuplicatesSuffix<T>(a: seq<T>, b: seq<T>)
    requires NoDuplicates(a + b)
    ensures NoDuplicates(b)
  {
    forall i, j | 0 <= i < j < |b| ensures b[i] != b[j] {
      assert (a + b)[|a| + i] == b[i] && (a + b)[|a| + j] == b[j];
    }
  }

  lemma NoDuplicatesPrefix<T>(a: seq<T>, b: seq<T>)
    requires NoDuplicates(a + b)
    ensures NoDuplicates(a)
  {
    forall i, j | 0 <= i < j < |a| ensures a[i] != a[j] {
      assert (a + b)[i] == a[i] && (a + b)[j] == a[j];
    }
  }

  lemma NoDuplicatesConcat<T>(a: seq<T>, b: seq<T>)
    requires NoDuplicates(a) && NoDuplicates(b) && forall x | x in b :: x !in a
    ensures NoDuplicates(a + b)
  {
    forall i, j | 0 <= i < j < |a + b| ensures (a + b)[i] != (a + b)[j] {
      if i < |a| <= j {
        assert b[j - |a|] in b && a[i] in a;
      }
    }
  }

  lemma DisjointParts<T>(a: seq<T>, b: seq<T>, x: T)
    requires NoDuplicates(a + b) && x in b
    ensures x !in a
  {
    var j :| 0 <= j < |b| && b[j] == x;
    assert (a + b)[|a| + j] == x;
    forall i | 0 <= i < |a| ensures a[i] != x {
      assert (a + b)[i] == a[i];
    }
  }

  lemma ConcatMembers<T>(a: seq<T>, b: seq<T>, x: T)
    ensures x in a + b <==> x in a || x in b
  {
  }

  lemma NotInPrefix<T>(s: seq<T>, k: nat)
    requires NoDuplicates(s) && k < |s|
    ensures s[k] !in s[..k]
  {
  }

  /** Items that are pairwise distinct and new are simply appended. */
  lemma {:induction false} ExtendFresh<T>(acc: seq<T>, items: seq<T>)
    requires NoDuplicates(acc + items)
    ensures Extend(acc, items) == acc + items
    decreases |items|
  {
    if items == [] {
      assert acc + items == acc;
    } else {
      NotInPrefix(acc + items, |acc|);
      assert (acc + items)[..|acc|] == acc;
      assert acc + [items[0]] + items[1..] == acc + items;
      ExtendFresh(acc + [items[0]], items[1..]);
    }
  }

  /** Position of the first `x`, or the length when there is none. */
  function FirstPosition<T(==)>(s: seq<T>, x: T): (i: nat)
    ensures i <= |s|
  {
    if s == [] || s[0] == x then 0 else 1 + FirstPosition(s[1..], x)
  }

  lemma {:induction false} FirstPositionIsFirst<T>(s: seq<T>, x: T)
    ensures var i := FirstPosition(s, x); (i < |s| ==> s[i] == x) && x !in s[..i]
  {
    if s != [] && s[0] != x {
      var i := FirstPosition(s[1..], x);
      FirstPositionIsFirst(s[1..], x);
      assert s[..i + 1] == [s[0]] + s[1..][..i];
    }
  }

  lemma FirstPositionFinds<T>(s: seq<T>, x: T)
    ensures x in s <==> FirstPosition(s, x) < |s|
    ensures x in s ==> s[FirstPosition(s, x)] == x
  {
    FirstPositionIsFirst(s, x);
    assert s[..|s|] == s;
  }

  lemma {:induction false} FirstPositionConcat<T>(a: seq<T>, b: seq<T>, x: T)
    ensures FirstPosition(a + b, x) == if x in a then FirstPosition(a, x) else |a| + FirstPosition(b, x)
  {
    if a == [] {
      assert a + b == b;
    } else {
      assert (a + b)[1..] == a[1..] + b;
      assert a == [a[0]] + a[1..];
      FirstPositionConcat(a[1..], b, x);
    }
  }

  /** `a` is `b` with some items left out. */
  ghost predicate Subsequence<T>(a: seq<T>, b: seq<T>)
    decreases |b|
  {
    || a == []
    || (b != [] && a[0] == b[0] && Subsequence(a[1..], b[1..]))
    || (b != [] && Subsequence(a, b[1..]))
  }

  lemma {:induction false} SubsequenceRefl<T>(a: seq<T>)
    ensures Subsequence(a, a)
  {
    if a != [] {
      SubsequenceRefl(a[1..]);
    }
  }

  lemma {:induction false} SubsequenceLater<T>(a: seq<T>, x: seq<T>, b: seq<T>)
    requires Subsequence(a, b)
    ensures Subsequence(a, x + b)
  {
    if x == [] {
      assert x + b == b;
    } else {
      assert (x + b)[1..] == x[1..] + b;
      SubsequenceLater(a, x[1..], b);
    }
  }

  /** Inserting items anywhere keeps the rest in order. */
  lemma {:induction false} InsertionKeepsOrder<T>(a: seq<T>, x: seq<T>, b: seq<T>)
    ensures Subsequence(a + b, a + x + b)
  {
    if a == [] {
      assert a + b == b && a + x + b == x + b;
      SubsequenceRefl(b);
      SubsequenceLater(b, x, b);
    } else {
      assert (a + b)[1..] == a[1..] + b && (a + x + b)[1..] == a[1..] + x + b;
      InsertionKeepsOrder(a[1..], x, b);
    }
  }

  lemma {:induction false} SubsequenceTransitive<T>(a: seq<T>, b: seq<T>, c: seq<T>)
    requires Subsequence(a, b) && Subsequence(b, c)
    ensures Subsequence(a, c)
    decreases |b| + |c|
  {
    if a != [] {
      if b[0] == c[0] && Subsequence(b[1..], c[1..]) {
        if a[0] == b[0] && Subsequence(a[1..], b[1..]) {
          SubsequenceTransitive(a[1..], b[1..], c[1..]);
        } else {
          SubsequenceTransitive(a, b[1..], c[1..]);
        }
      } else {
        SubsequenceTransitive(a, b, c[1..]);
      }
    }
  }
}
