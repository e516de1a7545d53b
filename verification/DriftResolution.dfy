/** Accepting or interactively resolving database drift before start-up (database/resolve.py,
    save_current_database_baseline in database/state.py, collect_database_status in database/status.py). */
module DriftResolution {
  import opened Results
  import opened Text
  import opened Sequences
  import opened DatabaseSchema
  import opened DatabaseDrift

  /** What the resolution loop can see and change. `config` is what the host configuration and the data
      directory yield, `role` is the live probe of the application role, `answers` what the user will type. */
  datatype Host = Host(config: CurrentState, lastRun: Option<LastRun>, role: Option<bool>,
                       answers: seq<string>, roleCreatable: bool, now: string)

  /** The `--accept-database-drift` kinds and whether stdin is a terminal. */
  datatype Session = Session(accepted: set<Kind>, interactive: bool)

  datatype Error = Aborted | NeedsConfirmation(kinds: seq<Kind>) | InputExhausted | RoleFailed | StillBlocking(kinds: seq<Kind>)

  // ---- Specification ---------------------------------------------------------------------------

  function Enriched(h: Host): CurrentState { h.config.WithRole(h.role) }

  function PendingNow(h: Host): seq<Drift> { Pending(Enriched(h), h.lastRun) }

  function Kinds(drifts: seq<Drift>): seq<Kind> {
    seq(|drifts|, i requires 0 <= i < |drifts| => drifts[i].kind)
  }

  /** `save_current_database_baseline` */
  function SaveBaseline(h: Host, assumeRole: bool): Host {
    h.(lastRun := Some((if assumeRole then Enriched(h).WithRole(Some(true)) else Enriched(h)).ToLastRun(h.now)))
  }

  /** `unresolved_blocking_drifts` */
  function Blocking(drifts: seq<Drift>, accepted: set<Kind>): seq<Drift> {
    if drifts == [] then []
    else if SeverityOf(drifts[0].kind) == High && drifts[0].kind !in accepted
    then [drifts[0]] + Blocking(drifts[1..], accepted)
    else Blocking(drifts[1..], accepted)
  }

  /** The drift may not pass unaccepted. */
  predicate Blocks(d: Drift, accepted: set<Kind>) {
    SeverityOf(d.kind) == High && d.kind !in accepted
  }

  /** Every drift of high severity has been accepted. */
  predicate HighAccepted(drifts: seq<Drift>, accepted: set<Kind>) {
    forall d | d in drifts :: SeverityOf(d.kind) == High ==> d.kind in accepted
  }

  predicate HighDriftAccepted(host: Host, accepted: set<Kind>) {
    HighAccepted(PendingNow(host), accepted)
  }

  lemma {:induction false} BlockingMembers(drifts: seq<Drift>, accepted: set<Kind>, d: Drift)
    ensures d in Blocking(drifts, accepted) <==> d in drifts && Blocks(d, accepted)
  {
    if drifts != [] {
      BlockingMembers(drifts[1..], accepted, d);
    }
  }

  lemma {:induction false} BlockingInOrder(drifts: seq<Drift>, accepted: set<Kind>)
    ensures Subsequence(Kinds(Blocking(drifts, accepted)), Kinds(drifts))
  {
    if drifts != [] {
      var rest := Blocking(drifts[1..], accepted);
      BlockingInOrder(drifts[1..], accepted);
      assert Kinds(drifts)[1..] == Kinds(drifts[1..]);
      if Blocks(drifts[0], accepted) {
        assert Kinds([drifts[0]] + rest)[1..] == Kinds(rest);
      }
    }
  }

  /** Nothing blocks exactly when every drift of high severity is accepted. */
  lemma {:induction false} BlockingEmpty(drifts: seq<Drift>, accepted: set<Kind>)
    ensures Blocking(drifts, accepted) == [] <==> HighAccepted(drifts, accepted)
  {
    if drifts != [] {
      BlockingEmpty(drifts[1..], accepted);
    }
  }

  /** What has to be accepted, over the two states: a moved data directory, a changed image and an absent role. */
  lemma HighDriftExactlyWhen(h: Host, accepted: set<Kind>)
    ensures HighDriftAccepted(h, accepted) <==>
      && (h.lastRun.Some? && h.config.compose.dataPath != h.lastRun.value.compose.dataPath ==> DataPath in accepted)
      && (h.lastRun.Some? && h.config.compose.imageTag != h.lastRun.value.compose.imageTag ==> PostgresMajor in accepted)
      && (h.role == Some(false) ==> AppRoleMissing in accepted)
  {
    hide HighAccepted, Moved, Pending;
    var s := Enriched(h);
    PendingFields(s, h.lastRun);
    var role := if h.role == Some(false) then [Drift(AppRoleMissing, Text(""), Text(s.cluster.appRole))] else [];
    RoleAccepted(role, accepted);
    if h.lastRun.Some? {
      var r := h.lastRun.value;
      var a, b := Moved(DataPath, Text(r.compose.dataPath), Text(s.compose.dataPath)),
                  Moved(PostgresMajor, Text(r.compose.imageTag), Text(s.compose.imageTag));
      var c, d := Moved(OdpmScenario, Text(r.scenario), Text(s.scenario)),
                  Moved(DataDirEmptyChanged, Flag(r.cluster.dataDirNonempty), Flag(s.cluster.dataDirNonempty));
      AcceptedConcat(a, b, accepted);
      AcceptedConcat(a + b, c, accepted);
      AcceptedConcat(a + b + c, d, accepted);
      AcceptedConcat(a + b + c + d, role, accepted);
      MovedAccepted(DataPath, Text(r.compose.dataPath), Text(s.compose.dataPath), accepted);
      MovedAccepted(PostgresMajor, Text(r.compose.imageTag), Text(s.compose.imageTag), accepted);
      MovedAccepted(OdpmScenario, Text(r.scenario), Text(s.scenario), accepted);
      MovedAccepted(DataDirEmptyChanged, Flag(r.cluster.dataDirNonempty), Flag(s.cluster.dataDirNonempty), accepted);
    } else {
      assert [] + role == role;
    }
  }

  lemma AcceptedConcat(a: seq<Drift>, b: seq<Drift>, accepted: set<Kind>)
    ensures HighAccepted(a + b, accepted) <==> HighAccepted(a, accepted) && HighAccepted(b, accepted)
  {
    if HighAccepted(a + b, accepted) {
      forall d | d in a || d in b ensures SeverityOf(d.kind) == High ==> d.kind in accepted {
        assert d in a + b;
      }
    }
  }

  lemma MovedAccepted(kind: Kind, previous: Shown, current: Shown, accepted: set<Kind>)
    ensures HighAccepted(Moved(kind, previous, current), accepted) <==>
      (previous != current && SeverityOf(kind) == High ==> kind in accepted)
  {
    if previous != current {
      assert Drift(kind, previous, current) in Moved(kind, previous, current);
    }
  }

  lemma RoleAccepted(role: seq<Drift>, accepted: set<Kind>)
    requires role == [] || (|role| == 1 && role[0].kind == AppRoleMissing)
    ensures HighAccepted(role, accepted) <==> (role != [] ==> AppRoleMissing in accepted)
  {
    if role != [] {
      assert role[0] in role;
    }
  }

  /** `kinds` are those of the pending drifts that block, in order. */
  ghost predicate NamesBlocking(kinds: seq<Kind>, pending: seq<Drift>, accepted: set<Kind>) {
    && Subsequence(kinds, Kinds(pending))
    && forall k :: k in kinds <==> exists d :: d in pending && d.kind == k && Blocks(d, accepted)
  }

  lemma BlockingNamed(pending: seq<Drift>, accepted: set<Kind>)
    ensures NamesBlocking(Kinds(Blocking(pending, accepted)), pending, accepted)
  {
    var blocking := Blocking(pending, accepted);
    BlockingInOrder(pending, accepted);
    forall k ensures k in Kinds(blocking) <==> exists d :: d in pending && d.kind == k && Blocks(d, accepted) {
      if k in Kinds(blocking) {
        var i :| 0 <= i < |blocking| && Kinds(blocking)[i] == k;
        BlockingMembers(pending, accepted, blocking[i]);
      }
      if d :| d in pending && d.kind == k && Blocks(d, accepted) {
        BlockingMembers(pending, accepted, d);
        var i :| 0 <= i < |blocking| && blocking[i] == d;
        assert Kinds(blocking)[i] == k;
      }
    }
  }

  function Normalized(answer: string): string { Lower(Strip(answer)) }

  /** The answers from the first valid one on. */
  function FromFirstValid(answers: seq<string>, valid: set<string>): (r: seq<string>)
    ensures |r| <= |answers|
    ensures r != [] ==> Normalized(r[0]) in valid
  {
    if answers == [] || Normalized(answers[0]) in valid then answers
    else FromFirstValid(answers[1..], valid)
  }

  /** The user typed this small or capital letter, perhaps between white space. */
  ghost predicate Types(answer: string, letter: char) {
    exists pre, c, post :: answer == pre + [c] + post && AllSpace(pre) && AllSpace(post)
      && (c == letter || c as int + 32 == letter as int)
  }

  lemma TypedExactlyWhen(answer: string, letter: char)
    requires 'a' <= letter <= 'z'
    ensures Normalized(answer) == [letter] <==> Types(answer, letter)
  {
    if Normalized(answer) == [letter] {
      var pre, post := StripCuts(answer);
      assert Lower(Strip(answer))[0] == letter;
      assert Strip(answer) == [Strip(answer)[0]];
    }
    if Types(answer, letter) {
      var pre, c, post :| answer == pre + [c] + post && AllSpace(pre) && AllSpace(post)
        && (c == letter || c as int + 32 == letter as int);
      StripFinds(pre, [c], post);
      assert Lower([c]) == [letter];
    }
  }

  function ValidChoices(kind: Kind): set<string> {
    match kind
    case AppRoleMissing => {"a", "b"}
    case DataPath | PostgresMajor => {"a", "b", "c"}
    case _ => {"a", "c"}
  }

  /** The choice that goes on; every other valid choice aborts. */
  function GoOn(kind: Kind): string {
    match kind
    case AppRoleMissing | DataPath | PostgresMajor => "b"
    case _ => "c"
  }

  datatype Step = Done | Next(host: Host) | Fail(host: Host, error: Error)

  /** One pass through the body of the `while True` loop. */
  function Round(h: Host, s: Session): Step {
    var pending := PendingNow(h);
    if pending == [] then Done
    else if pending[0].kind in s.accepted then Next(SaveBaseline(h, false))
    else if !s.interactive then Fail(h, NeedsConfirmation(Kinds(pending)))
    else Ask(h, pending[0].kind)
  }

  /** `_resolve_interactive` */
  function Ask(h: Host, kind: Kind): Step {
    var from := FromFirstValid(h.answers, ValidChoices(kind));
    if from == [] then Fail(h.(answers := []), InputExhausted)
    else
      var asked := h.(answers := from[1..]);
      if Normalized(from[0]) != GoOn(kind) then Fail(asked, Aborted)
      else if kind != AppRoleMissing then Next(SaveBaseline(asked, false))
      else if !h.roleCreatable then Fail(asked, RoleFailed)
      else Next(SaveBaseline(asked.(role := Some(true)), true))
  }

  datatype Outcome = Running(host: Host) | Resolved(host: Host) | Raised(host: Host, error: Error)

  /** The loop, cut off after `rounds` passes; leaving it runs the final blocking check. */
  function RunFor(h: Host, s: Session, rounds: nat): Outcome
    decreases rounds
  {
    if rounds == 0 then Running(h)
    else match Round(h, s)
      case Next(h') => RunFor(h', s, rounds - 1)
      case Fail(h', error) => Raised(h', error)
      case Done =>
        var blocking := Blocking(PendingNow(h), s.accepted);
        if blocking == [] then Resolved(h) else Raised(h, StillBlocking(Kinds(blocking)))
  }

  /** The first pending drift is accepted up front or by the user's first valid answer. */
  predicate Passes(h: Host, s: Session, kind: Kind) {
    || kind in s.accepted
    || (s.interactive
        && var from := FromFirstValid(h.answers, ValidChoices(kind));
           from != [] && Normalized(from[0]) == GoOn(kind) && (kind == AppRoleMissing ==> h.roleCreatable))
  }

  /** The role is absent, its absence is accepted rather than repaired, and nothing stops the loop first. */
  predicate Stuck(h: Host, s: Session) {
    && h.role == Some(false) && AppRoleMissing in s.accepted
    && PendingNow(h) != [] && Passes(h, s, PendingNow(h)[0].kind)
  }

  /** The user's first answer among these letters, in either case. */
  ghost predicate FirstTyped(answers: seq<string>, letters: set<char>, k: nat) {
    && k < |answers| && TypesOneOf(answers[k], letters)
    && forall j | 0 <= j < k :: !TypesOneOf(answers[j], letters)
  }

  ghost predicate TypesOneOf(answer: string, letters: set<char>) {
    exists c :: c in letters && Types(answer, c)
  }

  /** The letters a drift of this kind is answered with, and the one that goes on. */
  ghost predicate Offers(kind: Kind, letters: set<char>, goOn: char) {
    || (kind == AppRoleMissing && letters == {'a', 'b'} && goOn == 'b')
    || ((kind == DataPath || kind == PostgresMajor) && letters == {'a', 'b', 'c'} && goOn == 'b')
    || ((kind == OdpmScenario || kind == DataDirEmptyChanged) && letters == {'a', 'c'} && goOn == 'c')
  }

  lemma ValidExactlyWhen(kind: Kind, letters: set<char>, goOn: char, answer: string)
    requires Offers(kind, letters, goOn)
    ensures Normalized(answer) in ValidChoices(kind) <==> TypesOneOf(answer, letters)
    ensures Normalized(answer) == GoOn(kind) <==> Types(answer, goOn)
  {
    hide Normalized, Types;
    TypedExactlyWhen(answer, 'a');
    TypedExactlyWhen(answer, 'b');
    TypedExactlyWhen(answer, 'c');
    assert letters == {'a', 'b'} || letters == {'a', 'b', 'c'} || letters == {'a', 'c'};
  }

  lemma {:induction false} FirstValidExactlyWhen(answers: seq<string>, valid: set<string>, k: nat)
    requires k < |answers| && Normalized(answers[k]) in valid
    requires forall j | 0 <= j < k :: Normalized(answers[j]) !in valid
    ensures FromFirstValid(answers, valid) == answers[k..]
  {
    if k > 0 {
      assert answers[1..][k - 1..] == answers[k..];
      FirstValidExactlyWhen(answers[1..], valid, k - 1);
    }
  }

  lemma {:induction false} NoneValid(answers: seq<string>, valid: set<string>)
    requires forall j | 0 <= j < |answers| :: Normalized(answers[j]) !in valid
    ensures FromFirstValid(answers, valid) == []
  {
    if answers != [] {
      NoneValid(answers[1..], valid);
    }
  }

  /** What the user is asked and what each answer does, over the typed characters: anything but the offered letters is
      skipped; the first of them, in either case, decides. Going on creates an absent role, and records the
      configuration with the role as it then is. */
  lemma AskedExactly(h: Host, kind: Kind, letters: set<char>, goOn: char, k: nat)
    requires Offers(kind, letters, goOn) && FirstTyped(h.answers, letters, k)
    ensures var asked := h.(answers := h.answers[k + 1..]);
      Ask(h, kind) ==
        if !Types(h.answers[k], goOn) then Fail(asked, Aborted)
        else if kind != AppRoleMissing then Next(asked.(lastRun := Some(h.config.WithRole(h.role).ToLastRun(h.now))))
        else if !h.roleCreatable then Fail(asked, RoleFailed)
        else Next(asked.(role := Some(true), lastRun := Some(h.config.WithRole(Some(true)).ToLastRun(h.now))))
  {
    hide Normalized, Types, TypesOneOf, ValidChoices, GoOn;
    forall j | 0 <= j <= k
      ensures Normalized(h.answers[j]) in ValidChoices(kind) <==> TypesOneOf(h.answers[j], letters)
      ensures Normalized(h.answers[j]) == GoOn(kind) <==> Types(h.answers[j], goOn)
    {
      ValidExactlyWhen(kind, letters, goOn, h.answers[j]);
    }
    FirstValidExactlyWhen(h.answers, ValidChoices(kind), k);
  }

  /** Without such an answer the input runs out. */
  lemma AskedInVain(h: Host, kind: Kind, letters: set<char>, goOn: char)
    requires Offers(kind, letters, goOn) && forall k :: !FirstTyped(h.answers, letters, k)
    ensures Ask(h, kind) == Fail(h.(answers := []), InputExhausted)
  {
    hide Normalized, Types, TypesOneOf, ValidChoices;
    NoneTyped(h.answers, letters, |h.answers|);
    forall j | 0 <= j < |h.answers| ensures Normalized(h.answers[j]) !in ValidChoices(kind) {
      ValidExactlyWhen(kind, letters, goOn, h.answers[j]);
    }
    NoneValid(h.answers, ValidChoices(kind));
  }

  lemma {:induction false} NoneTyped(answers: seq<string>, letters: set<char>, n: nat)
    requires n <= |answers| && forall k :: !FirstTyped(answers, letters, k)
    ensures forall j | 0 <= j < n :: !TypesOneOf(answers[j], letters)
  {
    hide TypesOneOf;
    if n > 0 {
      NoneTyped(answers, letters, n - 1);
      assert !FirstTyped(answers, letters, n - 1);
    }
  }

  // ---- What a round does -------------------------------------------------------------------------

  /** A round goes on exactly when the first pending drift passes. It then leaves no last-run drift at
      all, of whatever kind, accepted or not; only a role that is still absent stays pending. */
  lemma RoundClears(h: Host, s: Session)
    requires PendingNow(h) != []
    ensures Round(h, s).Next? <==> Passes(h, s, PendingNow(h)[0].kind)
    ensures !Round(h, s).Done?
    ensures Round(h, s).Next? ==>
      var h' := Round(h, s).host;
      && h'.config == h.config && h'.lastRun.Some?
      && DetectLastRun(Enriched(h'), h'.lastRun.value) == []
      && PendingNow(h') == RoleDrift(Enriched(h'))
      && h'.role == (if PendingNow(h)[0].kind in s.accepted || PendingNow(h)[0].kind != AppRoleMissing
                     then h.role else Some(true))
      && (PendingNow(h)[0].kind in s.accepted ==> h' == h.(lastRun := Some(h.config.WithRole(h.role).ToLastRun(h.now))))
  {
    if Round(h, s).Next? {
      var h' := Round(h, s).host;
      var base := Enriched(h').WithRole(h'.lastRun.value.cluster.appRolePresent);
      assert h'.lastRun.value == base.ToLastRun(h.now);
      OwnSnapshotHasInternalDriftOnly(Enriched(h'), base.cluster.appRolePresent, h.now, false);
    }
  }

  lemma PendingNeedsResolution(h: Host, d: Drift)
    requires d in PendingNow(h)
    ensures NeedsResolution(d.kind)
  {
    RequiringMembers(Detect(Enriched(h), h.lastRun, false), d);
  }

  lemma RoleDriftPending(h: Host)
    ensures h.role == Some(false) ==> PendingNow(h) != [] && PendingNow(h)[|PendingNow(h)| - 1].kind == AppRoleMissing
    ensures h.role != Some(false) ==> forall d | d in PendingNow(h) :: d.kind != AppRoleMissing
  {
    PendingShape(Enriched(h), h.lastRun);
    if h.role != Some(false) && h.lastRun.Some? {
      forall d | d in PendingNow(h) ensures d.kind != AppRoleMissing {
        CompareMembers(RESOLVABLE, Enriched(h), h.lastRun.value, d);
      }
    }
  }

  /** Accepting a missing role while it stays absent changes nothing that is pending. */
  lemma AcceptedAbsentRoleStutters(h: Host, s: Session)
    requires h.role == Some(false) && AppRoleMissing in s.accepted
    requires PendingNow(h) != [] && PendingNow(h)[0].kind == AppRoleMissing
    ensures Round(h, s).Next?
    ensures PendingNow(Round(h, s).host) == PendingNow(h) == RoleDrift(Enriched(h))
    ensures Round(h, s).host.role == h.role
  {
    RoundClears(h, s);
    PendingShape(Enriched(h), h.lastRun);
    if h.lastRun.Some? {
      var head := Compare(RESOLVABLE, Enriched(h), h.lastRun.value);
      if head != [] {
        assert PendingNow(h)[0] == head[0];
        CompareMembers(RESOLVABLE, Enriched(h), h.lastRun.value, head[0]);
        assert false;
      }
      assert [] + RoleDrift(Enriched(h)) == RoleDrift(Enriched(h));
    }
  }

  // ---- Termination ---------------------------------------------------------------------------------

  /** Unless it is stuck, the loop ends within two accepting or resolving rounds. */
  lemma EndsWithinTwoRounds(h: Host, s: Session)
    requires !Stuck(h, s)
    ensures !RunFor(h, s, 3).Running?
  {
    if PendingNow(h) != [] {
      RoundClears(h, s);
      RoleDriftPending(h);
      if Round(h, s).Next? {
        var h1 := Round(h, s).host;
        assert RunFor(h, s, 3) == RunFor(h1, s, 2);
        if PendingNow(h1) != [] {
          assert PendingNow(h1)[0].kind == AppRoleMissing;
          assert h1.role == Some(false) == h.role;
          assert AppRoleMissing !in s.accepted;
          RoundClears(h1, s);
          if Round(h1, s).Next? {
            var h2 := Round(h1, s).host;
            assert h2.role == Some(true);
            assert PendingNow(h2) == [];
            assert RunFor(h1, s, 2) == RunFor(h2, s, 1);
          }
        }
      }
    }
  }

  lemma {:induction false} StutterForever(h: Host, s: Session, rounds: nat)
    requires h.role == Some(false) && AppRoleMissing in s.accepted
    requires PendingNow(h) == RoleDrift(Enriched(h))
    ensures RunFor(h, s, rounds).Running?
    decreases rounds
  {
    if rounds > 0 {
      AcceptedAbsentRoleStutters(h, s);
      StutterForever(Round(h, s).host, s, rounds - 1);
    }
  }

  lemma StuckNeverEnds(h: Host, s: Session, rounds: nat)
    requires Stuck(h, s)
    ensures RunFor(h, s, rounds).Running?
  {
    if rounds > 0 {
      RoundClears(h, s);
      StutterForever(Round(h, s).host, s, rounds - 1);
    }
  }

  /** The loop ends exactly when it is not stuck. */
  lemma EndsExactlyWhenNotStuck(h: Host, s: Session)
    ensures (exists rounds: nat :: !RunFor(h, s, rounds).Running?) <==> !Stuck(h, s)
  {
    if Stuck(h, s) {
      forall rounds: nat ensures RunFor(h, s, rounds).Running? {
        StuckNeverEnds(h, s, rounds);
      }
    } else {
      EndsWithinTwoRounds(h, s);
    }
  }

  // ---- Safety ----------------------------------------------------------------------------------------

  /** A normal return leaves nothing to resolve, and the final blocking check never fires. Either nothing
      was pending and nothing changed, or the new baseline agrees with the configuration in every field. */
  lemma {:induction false} ResolvedMeansClear(h: Host, s: Session, rounds: nat)
    ensures var o := RunFor(h, s, rounds);
      && o.host.config == h.config
      && (o.Raised? ==> !o.error.StillBlocking?)
      && (o.Resolved? ==>
            && PendingNow(o.host) == []
            && (o.host != h ==> o.host.lastRun.Some? && DetectLastRun(Enriched(o.host), o.host.lastRun.value) == [])
            && (o.host == h <==> PendingNow(h) == []))
    decreases rounds
  {
    if rounds > 0 && PendingNow(h) != [] {
      RoundClears(h, s);
      if Round(h, s).Next? {
        var h1 := Round(h, s).host;
        ResolvedMeansClear(h1, s, rounds - 1);
        assert RunFor(h, s, rounds) == RunFor(h1, s, rounds - 1);
      }
    }
  }

  /** Unattended, with the role not absent: resolution succeeds exactly when nothing is pending or the
      first pending kind was accepted, whatever else is pending; otherwise it names every pending kind. */
  lemma UnattendedResolution(h: Host, s: Session)
    requires !s.interactive && h.role != Some(false)
    ensures var pending := PendingNow(h);
      if pending == [] || pending[0].kind in s.accepted then RunFor(h, s, 2).Resolved?
      else RunFor(h, s, 2) == Raised(h, NeedsConfirmation(Kinds(pending)))
  {
    if PendingNow(h) != [] {
      RoundClears(h, s);
      if Round(h, s).Next? {
        var h1 := Round(h, s).host;
        assert PendingNow(h1) == [];
        assert RunFor(h, s, 2) == RunFor(h1, s, 1);
      }
    }
  }

  /** In general resolution succeeds exactly when nothing is pending, or the first drift passes and, if
      the role is then still absent, so does creating it. */
  lemma ResolvesExactlyWhen(h: Host, s: Session)
    requires !Stuck(h, s)
    ensures RunFor(h, s, 3).Resolved? <==>
      || PendingNow(h) == []
      || (Passes(h, s, PendingNow(h)[0].kind)
          && (h.role == Some(false) && PendingNow(h)[0].kind != AppRoleMissing
              ==> Passes(Round(h, s).host, s, AppRoleMissing)))
  {
    if PendingNow(h) != [] {
      RoundClears(h, s);
      RoleDriftPending(h);
      if Round(h, s).Next? {
        var h1 := Round(h, s).host;
        assert RunFor(h, s, 3) == RunFor(h1, s, 2);
        if PendingNow(h1) != [] {
          RoundClears(h1, s);
          if Round(h1, s).Next? {
            assert RunFor(h1, s, 2) == RunFor(Round(h1, s).host, s, 1);
          }
        }
      }
    }
  }

  /** Longer cut-offs do not change an outcome. */
  lemma {:induction false} OutcomeStable(h: Host, s: Session, n: nat, m: nat)
    requires n <= m && !RunFor(h, s, n).Running?
    ensures RunFor(h, s, m) == RunFor(h, s, n)
    decreases n
  {
    if n > 0 && Round(h, s).Next? {
      OutcomeStable(Round(h, s).host, s, n - 1, m - 1);
    }
  }

  // ---- The algorithm -----------------------------------------------------------------------------------

  /** The host during `resolve_database_drifts`. */
  class DatabaseHost {
    const config: CurrentState
    const roleCreatable: bool
    const now: string
    var lastRun: Option<LastRun>
    var role: Option<bool>
    var answers: seq<string>

    constructor (h: Host)
      ensures View() == h
    {
      config, roleCreatable, now := h.config, h.roleCreatable, h.now;
      lastRun, role, answers := h.lastRun, h.role, h.answers;
    }

    function View(): Host
      reads this
    {
      Host(config, lastRun, role, answers, roleCreatable, now)
    }

    method SaveCurrentBaseline(assumeRole: bool)
      modifies this`lastRun
      ensures View() == SaveBaseline(old(View()), assumeRole)
    {
      var current := Enriched(View());
      if assumeRole {
        current := current.WithRole(Some(true));
      }
      lastRun := Some(current.ToLastRun(now));
    }

    /** `_prompt_choice`: ask until a valid choice is typed; `None` when the input ends first. */
    method PromptChoice(valid: set<string>) returns (choice: Option<string>)
      modifies this`answers
      ensures var from := FromFirstValid(old(answers), valid);
        if from == [] then choice == None && answers == []
        else choice == Some(Normalized(from[0])) && answers == from[1..]
    {
      while answers != []
        invariant FromFirstValid(answers, valid) == FromFirstValid(old(answers), valid)
        decreases |answers|
      {
        var typed := Normalized(answers[0]);
        if typed in valid {
          choice := Some(typed);
          answers := answers[1..];
          return;
        }
        answers := answers[1..];
      }
      choice := None;
    }

    method ResolveInteractive(kind: Kind) returns (raised: Option<Error>)
      requires NeedsResolution(kind)
      modifies this
      ensures match Ask(old(View()), kind)
        case Next(h) => raised == None && View() == h
        case Fail(h, error) => raised == Some(error) && View() == h
        case Done => false
    {
      var choice := PromptChoice(ValidChoices(kind));
      if choice.None? {
        return Some(InputExhausted);
      }
      if kind == AppRoleMissing {
        if choice.value == "a" {
          return Some(Aborted);
        }
        if !roleCreatable {
          return Some(RoleFailed);
        }
        role := Some(true);
        SaveCurrentBaseline(true);
      } else if kind == DataPath || kind == PostgresMajor {
        if choice.value == "a" || choice.value == "c" {
          return Some(Aborted);
        }
        SaveCurrentBaseline(false);
      } else {
        if choice.value == "a" {
          return Some(Aborted);
        }
        SaveCurrentBaseline(false);
      }
      raised := None;
    }

    /** `ensure_no_blocking_database_drift` */
    method EnsureNoBlockingDrift(accepted: set<Kind>) returns (raised: Option<Error>)
      ensures raised.None? <==> HighDriftAccepted(View(), accepted)
      ensures raised.Some? ==> raised.value.StillBlocking? && NamesBlocking(raised.value.kinds, PendingNow(View()), accepted)
    {
      var blocking := Blocking(PendingNow(View()), accepted);
      BlockingEmpty(PendingNow(View()), accepted);
      BlockingNamed(PendingNow(View()), accepted);
      raised := if blocking == [] then None else Some(StillBlocking(Kinds(blocking)));
    }

    method ResolveDatabaseDrifts(s: Session) returns (raised: Option<Error>)
      requires !Stuck(View(), s)
      modifies this
      ensures RunFor(old(View()), s, 3) ==
        if raised.None? then Resolved(View()) else Raised(View(), raised.value)
    {
      hide PendingNow, Enriched, SaveBaseline, Ask, View, Stuck, Passes, NamesBlocking, Kinds;
      EndsWithinTwoRounds(View(), s);
      ghost var left: nat := 3;
      while true
        invariant 0 < left <= 3
        invariant RunFor(View(), s, left) == RunFor(old(View()), s, 3)
        invariant !RunFor(View(), s, left).Running?
        decreases left
      {
        var pending := PendingNow(View());
        if pending == [] {
          break;
        }
        var drift := pending[0];
        if drift.kind in s.accepted {
          SaveCurrentBaseline(false);
          left := left - 1;
          continue;
        }
        if !s.interactive {
          return Some(NeedsConfirmation(Kinds(pending)));
        }
        PendingNeedsResolution(View(), drift);
        raised := ResolveInteractive(drift.kind);
        if raised.Some? {
          return;
        }
        left := left - 1;
      }
      raised := EnsureNoBlockingDrift(s.accepted);
    }
  }
}
