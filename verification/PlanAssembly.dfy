/** Assembly of the plan: per-service steps and hooks are inserted into the evaluated prepare and runtime steps
    (plan/fragments_preview.py, plan/patches_preview.py, plan/hooks_preview.py, prepare/execute.py). */
module PlanAssembly {
  import opened Sequences
  import opened Ordering
  import opened ExtensionRegistry

  /** A step: its id, and all else it says. */
  datatype PlanStep = PlanStep(id: string, detail: string)

  const FRAGMENTS := "compose.fragments"
  const SERVICE := "compose.service"
  const COMPOSE_UP := "compose.up"
  const FRAGMENT_PREFIX := "compose.fragment."
  const PATCH_PREFIX := "compose.patch."
  const POST_PREPARE := "hooks.post_prepare"
  const PRE_UP := "hooks.pre_up"

  function StepIds(steps: seq<PlanStep>): seq<string> {
    seq(|steps|, i requires 0 <= i < |steps| => steps[i].id)
  }

  /** Where a block for `id` goes: before the first step with that id, else at the end. */
  function InsertionPoint(steps: seq<PlanStep>, id: string): (k: nat)
    ensures k <= |steps|
  {
    FirstPosition(StepIds(steps), id)
  }

  function InsertBefore(steps: seq<PlanStep>, id: string, block: seq<PlanStep>): seq<PlanStep> {
    var k := InsertionPoint(steps, id);
    steps[..k] + block + steps[k..]
  }

  /** Inserting a block step by step at moving offsets. */
  method InsertSteps(steps: seq<PlanStep>, id: string, block: seq<PlanStep>) returns (ordered: seq<PlanStep>)
    ensures ordered == InsertBefore(steps, id, block)
  {
    ordered := steps;
    var insertAt := InsertionPoint(steps, id);
    for offset := 0 to |block|
      invariant ordered == steps[..insertAt] + block[..offset] + steps[insertAt..]
    {
      InsertOne(steps[..insertAt], block, steps[insertAt..], offset);
      ordered := ordered[..insertAt + offset] + [block[offset]] + ordered[insertAt + offset..];
    }
    assert block[..|block|] == block;
  }

  lemma InsertOne(a: seq<PlanStep>, block: seq<PlanStep>, b: seq<PlanStep>, offset: nat)
    requires offset < |block|
    ensures var done := a + block[..offset] + b; var at := |a| + offset;
      done[..at] + [block[offset]] + done[at..] == a + block[..offset + 1] + b
  {
    assert block[..offset + 1] == block[..offset] + [block[offset]];
    assert (a + block[..offset] + b)[..|a| + offset] == a + block[..offset];
    assert (a + block[..offset] + b)[|a| + offset..] == b;
  }

  /** One step per service, by name. */
  function ServiceSteps(prefix: string, names: seq<string>, detail: string -> string): seq<PlanStep> {
    var sorted := Sort(StringLeq, names);
    seq(|sorted|, i requires 0 <= i < |sorted| => PlanStep(prefix + sorted[i], detail(sorted[i])))
  }

  method BuildServiceSteps(prefix: string, names: seq<string>, detail: string -> string) returns (steps: seq<PlanStep>)
    ensures steps == ServiceSteps(prefix, names, detail)
  {
    var sorted := Sort(StringLeq, names);
    steps := [];
    for i := 0 to |sorted|
      invariant steps == ServiceSteps(prefix, names, detail)[..i]
    {
      steps := steps + [PlanStep(prefix + sorted[i], detail(sorted[i]))];
    }
  }

  function FirstWithId(steps: seq<PlanStep>, id: string): seq<PlanStep> {
    var k := InsertionPoint(steps, id);
    if k < |steps| then [steps[k]] else []
  }

  /** `insert_prepare_hook_steps` */
  method InsertPrepareHook(steps: seq<PlanStep>, hooks: seq<PlanStep>) returns (ordered: seq<PlanStep>)
    ensures ordered == steps + FirstWithId(hooks, POST_PREPARE)
  {
    ordered := steps;
    var k := InsertionPoint(hooks, POST_PREPARE);
    if k < |hooks| {
      ordered := ordered + [hooks[k]];
    }
  }

  /** `insert_runtime_hook_steps` */
  method InsertRuntimeHook(steps: seq<PlanStep>, hooks: seq<PlanStep>) returns (ordered: seq<PlanStep>)
    ensures ordered == InsertBefore(steps, COMPOSE_UP, FirstWithId(hooks, PRE_UP))
  {
    ordered := steps;
    var k := InsertionPoint(hooks, PRE_UP);
    if k < |hooks| {
      var at := InsertionPoint(steps, COMPOSE_UP);
      ordered := ordered[..at] + [hooks[k]] + ordered[at..];
    } else {
      var at := InsertionPoint(steps, COMPOSE_UP);
      assert steps[..at] + [] + steps[at..] == steps;
    }
  }

  /** What goes into a plan. */
  datatype Parts = Parts(fragmentNames: seq<string>, fragmentDetail: string -> string,
                         patchNames: seq<string>, patchDetail: string -> string,
                         hooks: seq<PlanStep>, runtime: seq<PlanStep>)

  function Evaluated(steps: seq<StepDef>, evaluate: StepDef -> PlanStep): seq<PlanStep> {
    seq(|steps|, i requires 0 <= i < |steps| => evaluate(steps[i]))
  }

  function FragmentBlock(parts: Parts): seq<PlanStep> {
    ServiceSteps(FRAGMENT_PREFIX, parts.fragmentNames, parts.fragmentDetail)
  }

  function PatchBlock(parts: Parts): seq<PlanStep> {
    ServiceSteps(PATCH_PREFIX, parts.patchNames, parts.patchDetail)
  }

  function Expanded(steps: seq<PlanStep>, parts: Parts): seq<PlanStep> {
    InsertBefore(InsertBefore(steps, FRAGMENTS, FragmentBlock(parts)), SERVICE, PatchBlock(parts))
  }

  function PreparePart(steps: seq<PlanStep>, parts: Parts): seq<PlanStep> {
    Expanded(steps, parts) + FirstWithId(parts.hooks, POST_PREPARE)
  }

  function RuntimePart(parts: Parts): seq<PlanStep> {
    InsertBefore(parts.runtime, COMPOSE_UP, FirstWithId(parts.hooks, PRE_UP))
  }

  /** `build_prepare_plan` */
  method BuildPreparePlan(steps: seq<StepDef>, evaluate: StepDef -> PlanStep, parts: Parts) returns (plan: seq<PlanStep>)
    ensures plan == PreparePart(Evaluated(steps, evaluate), parts)
  {
    plan := Evaluated(steps, evaluate);
    var fragments := BuildServiceSteps(FRAGMENT_PREFIX, parts.fragmentNames, parts.fragmentDetail);
    plan := InsertSteps(plan, FRAGMENTS, fragments);
    var patches := BuildServiceSteps(PATCH_PREFIX, parts.patchNames, parts.patchDetail);
    plan := InsertSteps(plan, SERVICE, patches);
    plan := InsertPrepareHook(plan, parts.hooks);
  }

  /** `build_plan` */
  method BuildPlan(steps: seq<StepDef>, evaluate: StepDef -> PlanStep, parts: Parts) returns (plan: seq<PlanStep>)
    ensures plan == PreparePart(Evaluated(steps, evaluate), parts) + RuntimePart(parts)
  {
    plan := BuildPreparePlan(steps, evaluate, parts);
    var runtime := InsertRuntimeHook(parts.runtime, parts.hooks);
    plan := plan + runtime;
  }

  // ---- Where the blocks are ------------------------------------------------------------------------------------

  lemma StepIdsConcat(a: seq<PlanStep>, b: seq<PlanStep>)
    ensures StepIds(a + b) == StepIds(a) + StepIds(b)
  {
  }

  lemma InsertionPointConcat(a: seq<PlanStep>, b: seq<PlanStep>, id: string)
    ensures InsertionPoint(a + b, id) == if id in StepIds(a) then InsertionPoint(a, id) else |a| + InsertionPoint(b, id)
  {
    StepIdsConcat(a, b);
    FirstPositionConcat(StepIds(a), StepIds(b), id);
  }

  /** No fragment step is the one that the patch block goes in front of. */
  lemma BlockIdsDiffer(parts: Parts)
    ensures SERVICE !in StepIds(FragmentBlock(parts))
  {
    var block := FragmentBlock(parts);
    forall i | 0 <= i < |block| ensures StepIds(block)[i] != SERVICE {
      assert StepIds(block)[i][8] == FRAGMENT_PREFIX[8];
      assert FRAGMENT_PREFIX[8] != SERVICE[8];
    }
  }

  lemma InsertionPointSplits(steps: seq<PlanStep>, id: string)
    ensures var k := InsertionPoint(steps, id);
      && steps == steps[..k] + steps[k..] && id !in StepIds(steps[..k])
      && (id in StepIds(steps) <==> k < |steps|) && (k < |steps| ==> steps[k].id == id)
  {
    var k := InsertionPoint(steps, id);
    FirstPositionIsFirst(StepIds(steps), id);
    FirstPositionFinds(StepIds(steps), id);
    assert StepIds(steps)[..k] == StepIds(steps[..k]);
  }

  lemma NotBefore(steps: seq<PlanStep>, id: string, k: nat)
    requires k <= InsertionPoint(steps, id)
    ensures id !in StepIds(steps[..k])
  {
    FirstPositionIsFirst(StepIds(steps), id);
    forall i | 0 <= i < k ensures steps[i].id != id {
      assert StepIds(steps)[..InsertionPoint(steps, id)][i] == steps[i].id;
    }
  }

  lemma InBefore(steps: seq<PlanStep>, id: string, k: nat)
    requires InsertionPoint(steps, id) < k <= |steps|
    ensures id in StepIds(steps[..k]) && InsertionPoint(steps[..k], id) == InsertionPoint(steps, id)
  {
    assert steps == steps[..k] + steps[k..];
    InsertionPointConcat(steps[..k], steps[k..], id);
  }

  lemma PointAfterInsertion(steps: seq<PlanStep>, k: nat, block: seq<PlanStep>, id: string)
    requires k <= |steps| && id !in StepIds(block)
    ensures InsertionPoint(steps[..k] + block + steps[k..], id) ==
      var p := InsertionPoint(steps, id); if p < k then p else p + |block|
  {
    var a, b, p := steps[..k], steps[k..], InsertionPoint(steps, id);
    assert steps == a + b;
    InsertionPointConcat(a, b, id);
    InsertionPointConcat(a + block, b, id);
    InsertionPointConcat(a, block, id);
    StepIdsConcat(a, block);
    if p < k {
      InBefore(steps, id, k);
    } else {
      NotBefore(steps, id, k);
    }
  }

  /** The expanded steps are the evaluated ones with the two blocks put in, each whole. */
  lemma ExpandedShape(steps: seq<PlanStep>, parts: Parts)
    ensures var f, s := InsertionPoint(steps, FRAGMENTS), InsertionPoint(steps, SERVICE);
      Expanded(steps, parts) ==
        if s < f then steps[..s] + PatchBlock(parts) + steps[s..f] + FragmentBlock(parts) + steps[f..]
        else steps[..f] + FragmentBlock(parts) + steps[f..s] + PatchBlock(parts) + steps[s..]
  {
    hide FragmentBlock, PatchBlock, InsertionPoint, StepIds;
    var f, s, block := InsertionPoint(steps, FRAGMENTS), InsertionPoint(steps, SERVICE), FragmentBlock(parts);
    BlockIdsDiffer(parts);
    PointAfterInsertion(steps, f, block, SERVICE);
    CutInserted(steps, f, block, if s < f then s else s + |block|);
  }

  lemma CutInserted(steps: seq<PlanStep>, f: nat, block: seq<PlanStep>, at: nat)
    requires f <= |steps| && at <= |steps| + |block| && (at < f || at >= f + |block|)
    ensures var all := steps[..f] + block + steps[f..];
      if at < f then all[..at] == steps[..at] && all[at..] == steps[at..f] + block + steps[f..]
      else all[..at] == steps[..f] + block + steps[f..at - |block|] && all[at..] == steps[at - |block|..]
  {
  }

  /** `block` stands at `k` in `plan`, directly before the step `id`. */
  predicate StandsBefore(plan: seq<PlanStep>, k: int, block: seq<PlanStep>, id: string) {
    0 <= k && k + |block| < |plan| && plan[k..k + |block|] == block && plan[k + |block|].id == id
  }

  lemma StandsInConcat(a: seq<PlanStep>, block: seq<PlanStep>, b: seq<PlanStep>, id: string)
    requires b != [] && b[0].id == id
    ensures StandsBefore(a + block + b, |a|, block, id)
  {
  }

  lemma Regroup(a: seq<PlanStep>, b: seq<PlanStep>, c: seq<PlanStep>, d: seq<PlanStep>, e: seq<PlanStep>)
    ensures a + b + c + d + e == a + b + (c + d + e) && a + b + c + d + e == (a + b + c) + d + e
  {
  }

  lemma PositionsDiffer(steps: seq<PlanStep>)
    requires FRAGMENTS in StepIds(steps)
    ensures InsertionPoint(steps, FRAGMENTS) != InsertionPoint(steps, SERVICE)
  {
    InsertionPointSplits(steps, FRAGMENTS);
    InsertionPointSplits(steps, SERVICE);
    assert FRAGMENTS[8] != SERVICE[8];
  }

  /** In the prepare part the fragment block stands, whole, directly before `compose.fragments` and the patch block
      directly before `compose.service`. */
  lemma BlocksInPlace(steps: seq<PlanStep>, parts: Parts)
    requires FRAGMENTS in StepIds(steps) && SERVICE in StepIds(steps)
    ensures exists f :: StandsBefore(PreparePart(steps, parts), f,
      ServiceSteps("compose.fragment.", parts.fragmentNames, parts.fragmentDetail), "compose.fragments")
    ensures exists s :: StandsBefore(PreparePart(steps, parts), s,
      ServiceSteps("compose.patch.", parts.patchNames, parts.patchDetail), "compose.service")
  {
    hide ServiceSteps, FirstWithId, StandsBefore, InsertionPoint, Expanded, StepIds, PreparePart;
    BlocksStand(steps, parts);
  }

  lemma BlocksStand(steps: seq<PlanStep>, parts: Parts)
    requires FRAGMENTS in StepIds(steps) && SERVICE in StepIds(steps)
    ensures var f, s := InsertionPoint(steps, FRAGMENTS), InsertionPoint(steps, SERVICE);
      && StandsBefore(PreparePart(steps, parts), if s < f then f + |PatchBlock(parts)| else f, FragmentBlock(parts), FRAGMENTS)
      && StandsBefore(PreparePart(steps, parts), if s < f then s else s + |FragmentBlock(parts)|, PatchBlock(parts), SERVICE)
  {
    hide FirstWithId, FragmentBlock, PatchBlock, StandsBefore, InsertionPoint, Expanded, StepIds;
    var f, s := InsertionPoint(steps, FRAGMENTS), InsertionPoint(steps, SERVICE);
    var fragments, patches, tail := FragmentBlock(parts), PatchBlock(parts), FirstWithId(parts.hooks, POST_PREPARE);
    InsertionPointSplits(steps, FRAGMENTS);
    InsertionPointSplits(steps, SERVICE);
    ExpandedShape(steps, parts);
    PositionsDiffer(steps);
    if s < f {
      TwoBlocks(steps, s, patches, f, fragments, SERVICE, FRAGMENTS, tail);
    } else {
      TwoBlocks(steps, f, fragments, s, patches, FRAGMENTS, SERVICE, tail);
    }
  }

  /** `k` is the first step with this id. */
  predicate FirstAt(steps: seq<PlanStep>, id: string, k: int) {
    0 <= k < |steps| && steps[k].id == id && forall i | 0 <= i < k :: steps[i].id != id
  }

  lemma FirstExactlyAt(steps: seq<PlanStep>, id: string)
    ensures forall k :: FirstAt(steps, id, k) <==> k == InsertionPoint(steps, id) && k < |steps|
    ensures (forall k :: !FirstAt(steps, id, k)) ==> forall i | 0 <= i < |steps| :: steps[i].id != id
  {
    var p := InsertionPoint(steps, id);
    InsertionPointSplits(steps, id);
    forall i | 0 <= i < p ensures steps[i].id != id {
      assert StepIds(steps[..p])[i] == steps[i].id;
    }
    assert p < |steps| ==> FirstAt(steps, id, p);
  }

  /** The first `post_prepare` hook closes the prepare part, which without one is the expanded steps. */
  lemma PostPrepareLast(steps: seq<PlanStep>, parts: Parts)
    ensures forall k | FirstAt(parts.hooks, "hooks.post_prepare", k) ::
      PreparePart(steps, parts) == Expanded(steps, parts) + [parts.hooks[k]]
    ensures (forall k :: !FirstAt(parts.hooks, "hooks.post_prepare", k)) ==> PreparePart(steps, parts) == Expanded(steps, parts)
  {
    FirstExactlyAt(parts.hooks, POST_PREPARE);
    if InsertionPoint(parts.hooks, POST_PREPARE) < |parts.hooks| {
      assert FirstAt(parts.hooks, POST_PREPARE, InsertionPoint(parts.hooks, POST_PREPARE));
    }
  }

  lemma TwoBlocks(steps: seq<PlanStep>, i: nat, x: seq<PlanStep>, j: nat, y: seq<PlanStep>, idI: string, idJ: string, tail: seq<PlanStep>)
    requires i < j < |steps| && steps[i].id == idI && steps[j].id == idJ
    ensures var plan := steps[..i] + x + steps[i..j] + y + steps[j..] + tail;
      StandsBefore(plan, i, x, idI) && StandsBefore(plan, j + |x|, y, idJ)
  {
    var a, c, e := steps[..i], steps[i..j], steps[j..];
    Regroup(a, x, c, y, e + tail);
    assert a + x + c + y + e + tail == a + x + c + y + (e + tail);
    StandsInConcat(a, x, c + y + (e + tail), idI);
    StandsInConcat(a + x + c, y, e + tail, idJ);
  }

  /** The runtime steps are all there; the first `pre_up` hook stands before the first `compose.up`, or at the end, and
      without a hook nothing is added. */
  lemma PreUpInPlace(parts: Parts)
    ensures (forall k :: !FirstAt(parts.hooks, "hooks.pre_up", k)) ==> RuntimePart(parts) == parts.runtime
    ensures forall k, at | FirstAt(parts.hooks, "hooks.pre_up", k) && FirstAt(parts.runtime, "compose.up", at) ::
      RuntimePart(parts) == parts.runtime[..at] + [parts.hooks[k]] + parts.runtime[at..]
    ensures forall k | FirstAt(parts.hooks, "hooks.pre_up", k) && (forall at :: !FirstAt(parts.runtime, "compose.up", at)) ::
      RuntimePart(parts) == parts.runtime + [parts.hooks[k]]
  {
    FirstExactlyAt(parts.hooks, PRE_UP);
    FirstExactlyAt(parts.runtime, COMPOSE_UP);
    var at, k := InsertionPoint(parts.runtime, COMPOSE_UP), InsertionPoint(parts.hooks, PRE_UP);
    assert at < |parts.runtime| ==> FirstAt(parts.runtime, COMPOSE_UP, at);
    assert k < |parts.hooks| ==> FirstAt(parts.hooks, PRE_UP, k);
    assert parts.runtime[..at] + [] + parts.runtime[at..] == parts.runtime;
  }

  // ---- Nothing else changes --------------------------------------------------------------------------------------

  lemma InsertBeforeKeeps(steps: seq<PlanStep>, id: string, block: seq<PlanStep>)
    ensures Subsequence(steps, InsertBefore(steps, id, block))
    ensures multiset(InsertBefore(steps, id, block)) == multiset(steps) + multiset(block)
  {
    var k := InsertionPoint(steps, id);
    assert steps == steps[..k] + steps[k..];
    InsertionKeepsOrder(steps[..k], block, steps[k..]);
  }

  lemma AppendKeeps(steps: seq<PlanStep>, tail: seq<PlanStep>)
    ensures Subsequence(steps, steps + tail)
  {
    assert steps + [] == steps && steps + tail + [] == steps + tail;
    InsertionKeepsOrder(steps, tail, []);
  }

  /** One step per name, in the order of the names. */
  function NamedSteps(prefix: string, names: seq<string>, detail: string -> string): seq<PlanStep> {
    seq(|names|, i requires 0 <= i < |names| => PlanStep(prefix + names[i], detail(names[i])))
  }

  lemma {:induction false} InsertNamed(prefix: string, name: string, names: seq<string>, detail: string -> string)
    ensures multiset(NamedSteps(prefix, Insert(StringLeq, name, names), detail))
         == multiset([PlanStep(prefix + name, detail(name))]) + multiset(NamedSteps(prefix, names, detail))
  {
    hide StringLeq;
    if names == [] || StringLeq(name, names[0]) {
      NamedStepsCons(prefix, name, names, detail);
    } else {
      InsertNamed(prefix, name, names[1..], detail);
      NamedStepsCons(prefix, names[0], names[1..], detail);
      NamedStepsCons(prefix, names[0], Insert(StringLeq, name, names[1..]), detail);
      assert [names[0]] + names[1..] == names;
    }
  }

  lemma NamedStepsCons(prefix: string, name: string, names: seq<string>, detail: string -> string)
    ensures NamedSteps(prefix, [name] + names, detail)
         == [PlanStep(prefix + name, detail(name))] + NamedSteps(prefix, names, detail)
  {
  }

  lemma {:induction false} SortNamed(prefix: string, names: seq<string>, detail: string -> string)
    ensures multiset(NamedSteps(prefix, Sort(StringLeq, names), detail)) == multiset(NamedSteps(prefix, names, detail))
  {
    hide StringLeq, Insert;
    if names != [] {
      SortNamed(prefix, names[1..], detail);
      InsertNamed(prefix, names[0], Sort(StringLeq, names[1..]), detail);
      NamedStepsCons(prefix, names[0], names[1..], detail);
      assert [names[0]] + names[1..] == names;
    }
  }

  /** A service block holds one step per service, sorted by name. */
  lemma ServiceStepsByName(prefix: string, names: seq<string>, detail: string -> string)
    ensures var block := ServiceSteps(prefix, names, detail);
      && multiset(block) == multiset(NamedSteps(prefix, names, detail))
      && forall i, j | 0 <= i < j < |block| :: NamedInOrder(prefix, block[i], block[j])
  {
    var sorted := Sort(StringLeq, names);
    StringOrderIsTotal();
    SortSorted(StringLeq, names);
    SortNamed(prefix, names, detail);
    var block := ServiceSteps(prefix, names, detail);
    assert block == NamedSteps(prefix, sorted, detail);
    forall i, j | 0 <= i < j < |block| ensures NamedInOrder(prefix, block[i], block[j]) {
      assert block[i].id[|prefix|..] == sorted[i] && block[j].id[|prefix|..] == sorted[j];
    }
  }

  predicate NamedInOrder(prefix: string, a: PlanStep, b: PlanStep) {
    prefix <= a.id && prefix <= b.id && StringLeq(a.id[|prefix|..], b.id[|prefix|..])
  }

  /** Plan assembly only inserts: the evaluated steps keep their order, and the prepare part holds them, one step for
      each fragment and each patch, and the hook, nothing more or less. */
  lemma AssemblyOnlyInserts(steps: seq<PlanStep>, parts: Parts)
    ensures Subsequence(steps, PreparePart(steps, parts))
    ensures multiset(PreparePart(steps, parts)) ==
      multiset(steps) + multiset(NamedSteps("compose.fragment.", parts.fragmentNames, parts.fragmentDetail))
      + multiset(NamedSteps("compose.patch.", parts.patchNames, parts.patchDetail))
      + multiset(FirstWithId(parts.hooks, POST_PREPARE))
  {
    hide ServiceSteps, NamedSteps, FirstWithId, InsertBefore;
    var withFragments := InsertBefore(steps, FRAGMENTS, FragmentBlock(parts));
    var expanded := InsertBefore(withFragments, SERVICE, PatchBlock(parts));
    InsertBeforeKeeps(steps, FRAGMENTS, FragmentBlock(parts));
    InsertBeforeKeeps(withFragments, SERVICE, PatchBlock(parts));
    ServiceStepsByName(FRAGMENT_PREFIX, parts.fragmentNames, parts.fragmentDetail);
    ServiceStepsByName(PATCH_PREFIX, parts.patchNames, parts.patchDetail);
    SubsequenceTransitive(steps, withFragments, expanded);
    AppendKeeps(expanded, FirstWithId(parts.hooks, POST_PREPARE));
    SubsequenceTransitive(steps, expanded, PreparePart(steps, parts));
  }

  /** The evaluated steps of the registry keep their order in the whole plan: the program's own, then the
      extensions'. */
  lemma RegistryOrderKept(builtin: seq<StepDef>, extension: seq<StepDef>, evaluate: StepDef -> PlanStep, parts: Parts)
    ensures Subsequence(Evaluated(builtin, evaluate) + Evaluated(extension, evaluate),
                        PreparePart(Evaluated(builtin + extension, evaluate), parts) + RuntimePart(parts))
  {
    var steps := Evaluated(builtin + extension, evaluate);
    assert steps == Evaluated(builtin, evaluate) + Evaluated(extension, evaluate);
    AssemblyOnlyInserts(steps, parts);
    AppendKeeps(PreparePart(steps, parts), RuntimePart(parts));
    SubsequenceTransitive(steps, PreparePart(steps, parts), PreparePart(steps, parts) + RuntimePart(parts));
  }
}
