/** Prepare steps of the program and of its extensions (extensions/registry.py, prepare/registry.py). */
module ExtensionRegistry {
  import opened Results
  import opened Sequences
  import opened Ordering

  datatype StepDef = StepDef(id: string, description: string)

  datatype Registration = Registration(step: StepDef, order: int)

  const DEFAULT_ORDER := 1000

  /** Sort key `(order, id)`. */
  predicate RegisteredBefore(a: Registration, b: Registration) {
    a.order < b.order || (a.order == b.order && StringLeq(a.step.id, b.step.id))
  }

  function Steps(registrations: seq<Registration>): (steps: seq<StepDef>)
    ensures |steps| == |registrations|
  {
    seq(|registrations|, i requires 0 <= i < |registrations| => registrations[i].step)
  }

  function Ids(steps: seq<StepDef>): seq<string> {
    seq(|steps|, i requires 0 <= i < |steps| => steps[i].id)
  }

  /** `load_entry_point_prepare_steps`: plugin steps and manual ones, in order. */
  function ExtensionSteps(plugged: seq<Registration>, manual: seq<Registration>): seq<StepDef> {
    Steps(Sort(RegisteredBefore, plugged + manual))
  }

  class PrepareStepRegistry {
    var manual: seq<Registration>

    constructor ()
      ensures manual == []
    {
      manual := [];
    }

    /** No two manual registrations share an id. */
    ghost predicate Valid()
      reads this
    {
      NoDuplicates(Ids(Steps(manual)))
    }

    /** `register_prepare_step`: refuses an id that is already registered. */
    method RegisterPrepareStep(step: StepDef, order: Option<int>, pluginOrder: Option<int>) returns (r: Result<(), string>)
      requires Valid()
      modifies this
      ensures Valid()
      ensures r.Err? <==> step.id in Ids(Steps(old(manual)))
      ensures r.Err? ==> manual == old(manual) && r.error == step.id
      ensures r.Ok? ==> manual == old(manual) + [Registration(step,
        if order.Some? then order.value else if pluginOrder.Some? then pluginOrder.value else 1000)]
    {
      for i := 0 to |manual|
        invariant step.id !in Ids(Steps(manual))[..i]
        invariant manual == old(manual)
      {
        assert Ids(Steps(manual))[..i + 1] == Ids(Steps(manual))[..i] + [manual[i].step.id];
        if manual[i].step.id == step.id {
          assert Ids(Steps(manual))[i] == step.id;
          return Err(step.id);
        }
      }
      assert Ids(Steps(manual))[..|manual|] == Ids(Steps(manual));
      var added := Registration(step, EffectiveOrder(order, pluginOrder));
      assert Ids(Steps(manual + [added])) == Ids(Steps(manual)) + [step.id];
      manual := manual + [added];
      r := Ok(());
    }

    /** `get_prepare_steps`: the program's steps, then the extensions'; an extension that reuses an id of the
        program's raises. */
    method GetPrepareSteps(builtin: seq<StepDef>, plugged: seq<Registration>) returns (r: Result<seq<StepDef>, string>)
      ensures var extension := ExtensionSteps(plugged, manual);
        && (r.Ok? <==> forall id | id in Ids(extension) :: id !in Ids(builtin))
        && (r.Ok? ==> r.value == builtin + extension)
        && (r.Err? ==> r.error in Ids(extension) && r.error in Ids(builtin))
    {
      var extension := ExtensionSteps(plugged, manual);
      for i := 0 to |extension|
        invariant forall j | 0 <= j < i :: Ids(extension)[j] !in Ids(builtin)
      {
        if Ids(extension)[i] in Ids(builtin) {
          return Err(Ids(extension)[i]);
        }
      }
      r := Ok(builtin + extension);
    }
  }

  function EffectiveOrder(order: Option<int>, pluginOrder: Option<int>): int {
    if order.Some? then order.value else if pluginOrder.Some? then pluginOrder.value else DEFAULT_ORDER
  }

  lemma RegistrationOrderIsTotal()
    ensures TotalPreorder(RegisteredBefore)
  {
    forall a, b ensures RegisteredBefore(a, b) || RegisteredBefore(b, a) {
      StringLeqTotal(a.step.id, b.step.id);
    }
    forall a, b, c | RegisteredBefore(a, b) && RegisteredBefore(b, c) ensures RegisteredBefore(a, c) {
      if a.order == b.order == c.order {
        StringLeqTransitive(a.step.id, b.step.id, c.step.id);
      }
    }
  }

  /** Extension steps are exactly the registered ones, by rising order and, within one order, by id; where both are the
      same, the plugins' come first and each in the order of registration. */
  lemma ExtensionStepsOrdered(plugged: seq<Registration>, manual: seq<Registration>, x: Registration)
    returns (sorted: seq<Registration>)
    ensures ExtensionSteps(plugged, manual) == Steps(sorted)
    ensures multiset(sorted) == multiset(plugged) + multiset(manual)
    ensures forall i, j | 0 <= i < j < |sorted| ::
      && sorted[i].order <= sorted[j].order
      && (sorted[i].order == sorted[j].order ==> StringLeq(sorted[i].step.id, sorted[j].step.id))
    ensures Likes(x, sorted) == Likes(x, plugged) + Likes(x, manual)
  {
    sorted := Sort(RegisteredBefore, plugged + manual);
    RegistrationOrderIsTotal();
    SortSorted(RegisteredBefore, plugged + manual);
    SortMultiset(RegisteredBefore, plugged + manual);
    forall i, j | 0 <= i < j < |sorted|
      ensures sorted[i].order <= sorted[j].order
      ensures sorted[i].order == sorted[j].order ==> StringLeq(sorted[i].step.id, sorted[j].step.id)
    {
      assert RegisteredBefore(sorted[i], sorted[j]);
    }
    SortStable(RegisteredBefore, x, plugged + manual);
    TiesAreLikes(x, sorted);
    TiesAreLikes(x, plugged + manual);
    LikesConcat(x, plugged, manual);
  }

  /** The registrations with the order and id of `x`. */
  function Likes(x: Registration, s: seq<Registration>): seq<Registration> {
    if s == [] then []
    else (if s[0].order == x.order && s[0].step.id == x.step.id then [s[0]] else []) + Likes(x, s[1..])
  }

  lemma {:induction false} TiesAreLikes(x: Registration, s: seq<Registration>)
    ensures Ties(RegisteredBefore, x, s) == Likes(x, s)
  {
    if s != [] {
      TiesAreLikes(x, s[1..]);
      StringLeqTotal(x.step.id, s[0].step.id);
      if x.order == s[0].order && StringLeq(x.step.id, s[0].step.id) && StringLeq(s[0].step.id, x.step.id) {
        StringLeqAntisymmetric(x.step.id, s[0].step.id);
      }
    }
  }

  lemma {:induction false} LikesConcat(x: Registration, a: seq<Registration>, b: seq<Registration>)
    ensures Likes(x, a + b) == Likes(x, a) + Likes(x, b)
  {
    if a == [] {
      assert a + b == b;
    } else {
      assert (a + b)[0] == a[0] && (a + b)[1..] == a[1..] + b;
      LikesConcat(x, a[1..], b);
    }
  }

  lemma SameKeySameIndex(all: seq<Registration>, a: Registration, b: Registration)
    requires NoDuplicates(Ids(Steps(all))) && a in all && b in all && a.step.id == b.step.id
    ensures a == b
  {
    var i :| 0 <= i < |all| && all[i] == a;
    var j :| 0 <= j < |all| && all[j] == b;
    assert Ids(Steps(all))[i] == Ids(Steps(all))[j];
  }

  lemma DistinctIdsDistinct(all: seq<Registration>)
    requires NoDuplicates(Ids(Steps(all)))
    ensures NoDuplicates(all)
  {
    forall i, j | 0 <= i < j < |all| ensures all[i] != all[j] {
      assert Ids(Steps(all))[i] != Ids(Steps(all))[j];
    }
  }

  /** With distinct ids, the order in which plugins were loaded or registered does not matter. */
  lemma LoadOrderIrrelevant(plugged: seq<Registration>, manual: seq<Registration>, plugged': seq<Registration>, manual': seq<Registration>)
    requires multiset(plugged + manual) == multiset(plugged' + manual')
    requires NoDuplicates(Ids(Steps(plugged + manual)))
    ensures ExtensionSteps(plugged, manual) == ExtensionSteps(plugged', manual')
  {
    var a, b := plugged + manual, plugged' + manual';
    RegistrationOrderIsTotal();
    DistinctIdsDistinct(a);
    NoDuplicatesByMultiset(a, b);
    SortSorted(RegisteredBefore, a);
    SortSorted(RegisteredBefore, b);
    SortNoDuplicates(RegisteredBefore, a);
    SortNoDuplicates(RegisteredBefore, b);
    forall x ensures x in Sort(RegisteredBefore, a) <==> x in Sort(RegisteredBefore, b) {
      SortMembers(RegisteredBefore, a, x);
      SortMembers(RegisteredBefore, b, x);
      assert x in multiset(a) <==> x in multiset(b);
    }
    NoTies(a);
    SortedUnique(RegisteredBefore, Sort(RegisteredBefore, a), Sort(RegisteredBefore, b));
  }

  lemma NoTies(all: seq<Registration>)
    requires NoDuplicates(Ids(Steps(all)))
    ensures var sorted := Sort(RegisteredBefore, all);
      forall x, y | x in sorted && y in sorted && RegisteredBefore(x, y) && RegisteredBefore(y, x) :: x == y
  {
    var sorted := Sort(RegisteredBefore, all);
    forall x, y | x in sorted && y in sorted && RegisteredBefore(x, y) && RegisteredBefore(y, x) ensures x == y {
      SortMembers(RegisteredBefore, all, x);
      SortMembers(RegisteredBefore, all, y);
      StringLeqAntisymmetric(x.step.id, y.step.id);
      SameKeySameIndex(all, x, y);
    }
  }
}
