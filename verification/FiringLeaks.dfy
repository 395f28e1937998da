/** Which runs of host code leak Lua references, and which do not. */
module FiringLeaks {
  import opened AutocmdPatterns
  import opened AutocmdStore
  import opened FiringModel
  import opened FiringSafety
  import opened FiringTheorems
  import opened LeaksPersist

  // ----- host code that removes definitions through releasing removers only

  predicate TidySteps(steps: Steps) {
    match steps
    case Done => true
    case Then(step, rest) => TidyStep(step) && TidySteps(rest)
  }

  predicate TidyStep(step: Step) {
    match step
    case CreateAugroup(_, clear) => !clear
    case WipeBuffer(_) => false
    case Execute(_, runs) => TidyRuns(runs)
    case _ => true
  }

  predicate TidyRuns(runs: Runs) {
    match runs
    case Quiet => true
    case Visit(_, body, _, rest) => TidySteps(body) && TidyRuns(rest)
  }

  predicate TidyTurns(turns: seq<Turn>) {
    forall i :: 0 <= i < |turns| && turns[i].Calls? ==> TidySteps(turns[i].steps)
  }

  /** Nothing is given up between two sessions. */
  predicate Keeps(s: Session, t: Session) {
    t.discarded == s.discarded && t.refuses == s.refuses
  }

  lemma ReleaseKeeps(s: Session, doomed: Entry -> bool, inflight: set<nat>)
    requires Inv(s, inflight) && Outermost(s, inflight) && s.refuses == {}
    ensures Keeps(s, StripAndRelease(s, doomed))
  {
    StripOk(s, doomed, inflight);
    ReleaseRemovedOk(Strip(s, doomed), Dropped(s.store, doomed), inflight);
  }

  lemma DeleteAugroupKeeps(s: Session, id: GroupId, inflight: set<nat>)
    requires Inv(s, inflight) && Outermost(s, inflight) && s.refuses == {}
    ensures Keeps(s, DeleteAugroup(s, id))
  {
    if id in s.store.groups && s.store.groups[id].Live? {
      var gone := Retain(s.store.entries, InGroup(id));
      DeleteGroupShrinks(s.store, id);
      ReplaceOk(s, DeleteGroup(s.store, id).value, gone, inflight);
      ReleaseRemovedOk(Replace(s, DeleteGroup(s.store, id).value, gone), Kinds(gone), inflight);
    }
  }

  lemma SettleKeeps(s: Session, a: Action, outcome: Outcome, removed: seq<Kind>, inflight: set<nat>)
    requires Inv(s, inflight + LuaRefs(removed)) && Outermost(s, inflight) && s.refuses == {}
    ensures Keeps(s, Settle(s, a, outcome, removed).0)
  {
    if outcome == Delete {
      var more := Dropped(s.store, WithId(a.id));
      DropsOne(s.store, WithId(a.id), a.id);
      StripOk(s, WithId(a.id), inflight + LuaRefs(removed));
      assert inflight + LuaRefs(removed) + LuaRefs(more) == inflight + LuaRefs(removed + more);
      ReleaseRemovedOk(Strip(s, WithId(a.id)), removed + more, inflight);
    } else {
      ReleaseRemovedOk(s, removed, inflight);
    }
  }

  lemma {:induction false} ExecutorKeeps(s: Session, a: Action, runs: Runs, frame: nat, inflight: set<nat>)
    requires Inv(s, inflight) && MayRun(s, a, frame) && s.refuses == {} && TidyRuns(runs)
    ensures Keeps(s, WithExecutor(s, a, runs, frame).0)
    decreases runs, 0
  {
    var forks := runs.Visit? && runs.forks;
    var s' := Grow(s, forks);
    GrowSlotsOk(s, forks, inflight);
    if s'.depth < s'.slots && runs.Visit? {
      EnterOk(s', a, frame, inflight);
      hide Inv;
      hide MayRun;
      StepsKeep(Enter(s', a, frame), runs.body, inflight);
    }
  }

  lemma {:induction false} ActionKeeps(s: Session, a: Action, runs: Runs, frame: nat, inflight: set<nat>)
    requires Inv(s, inflight) && Outermost(s, inflight) && ActionOk(s, a) && LiveEntry(s.store, a.id)
    requires frame < s.frames && Below(s.trace, frame, a.id) && s.refuses == {} && TidyRuns(runs)
    ensures var (s1, removed) := Consume(s, a);
            var (s2, outcome) := WithExecutor(s1, a, runs, frame);
            Keeps(s, Settle(s2, a, outcome, removed).0)
    decreases runs, 1
  {
    hide Inv;
    hide TidyRuns;
    var (s1, removed) := Consume(s, a);
    ConsumeOk(s, a, frame, inflight);
    assert Keeps(s, s1);
    hide Consume;
    var (s2, outcome) := WithExecutor(s1, a, runs, frame);
    WithExecutorOk(s1, a, runs, frame, inflight + LuaRefs(removed));
    ExecutorKeeps(s1, a, runs, frame, inflight + LuaRefs(removed));
    hide WithExecutor;
    hide MayRun;
    SettleKeeps(s2, a, outcome, removed, inflight);
  }

  lemma {:induction false} PlanKeeps(s: Session, plan: seq<Action>, runs: Runs, frame: nat, inflight: set<nat>)
    requires Inv(s, inflight) && Outermost(s, inflight) && PlanOk(s, plan) && frame < s.frames
    requires (plan != [] ==> Below(s.trace, frame, plan[0].id)) && s.refuses == {} && TidyRuns(runs)
    ensures Keeps(s, ExecutePlan(s, plan, runs, frame).0)
    decreases runs, 2, |plan|
  {
    if plan != [] {
      hide Inv;
      var a, others := plan[0], plan[1..];
      assert forall b :: b in others ==> b in plan;
      assert others != [] ==> a.id < others[0].id;
      if !LiveEntry(s.store, a.id) {
        PlanKeeps(s, others, runs, frame, inflight);
      } else {
        var (s1, removed) := Consume(s, a);
        var (s2, outcome) := WithExecutor(s1, a, runs, frame);
        var (s3, cleaned) := Settle(s2, a, outcome, removed);
        ActionRunsOk(s, a, runs, frame, inflight);
        ActionKeeps(s, a, runs, frame, inflight);
        hide Consume;
        hide WithExecutor;
        hide Settle;
        if outcome != Fail && cleaned {
          PlanStays(s, s3, others);
          PlanKeeps(s3, others, Next(runs), frame, inflight);
        }
      }
    }
  }

  lemma {:induction false} StepKeeps(s: Session, step: Step, inflight: set<nat>)
    requires Inv(s, inflight) && Outermost(s, inflight) && s.refuses == {} && TidyStep(step)
    ensures Keeps(s, RunStep(s, step))
    decreases step, 0
  {
    hide Inv;
    match step
    case DelAutocmd(apiId) => ReleaseKeeps(s, WithApiId(apiId), inflight);
    case DelGroup(id) => DeleteAugroupKeeps(s, id, inflight);
    case DelGroupNamed(name) =>
      if name in s.store.names {
        DeleteAugroupKeeps(s, s.store.names[name], inflight);
      }
    case ClearAutocmds(filter) => ReleaseKeeps(s, ByFilter(s.store, filter), inflight);
    case Execute(k, runs) =>
      if k < |s.plans| {
        FrameOpens(s, k, inflight);
        PlanKeeps(s.(frames := s.frames + 1), s.plans[k], runs, s.frames, inflight);
      }
    case _ =>
  }

  lemma {:induction false} StepsKeep(s: Session, steps: Steps, inflight: set<nat>)
    requires Inv(s, inflight) && Outermost(s, inflight) && s.refuses == {} && TidySteps(steps)
    ensures Keeps(s, RunSteps(s, steps))
    decreases steps, 0
  {
    hide Inv;
    match steps
    case Done =>
    case Then(step, rest) =>
      StepKeeps(s, step, inflight);
      RunStepOk(s, step, inflight);
      StepsKeep(RunStep(s, step), rest, inflight);
  }

  lemma {:induction false} TurnsKeep(s: Session, turns: seq<Turn>)
    requires Inv(s, {}) && s.depth == 0 && s.refuses == {} && TidyTurns(turns)
    ensures Keeps(s, TakeTurns(s, turns))
    decreases |turns|
  {
    hide Inv;
    if turns != [] {
      var turn := turns[0];
      TurnOk(s, turn);
      if turn.Calls? {
        StepsKeep(s, turn.steps, {});
      }
      TurnsKeep(TakeTurn(s, turn), turns[1..]);
    }
  }

  /** If the host never refuses a free, tidy host code leaks only what it failed to
      register: in every history the references not freed are exactly those of stored
      definitions, those queued and those whose registration failed, and these last are the
      leaked ones. */
  lemma NothingLeaks(turns: seq<Turn>)
    requires TidyTurns(turns)
    ensures var s := TakeTurns(NewSession({}), turns);
            && (forall r :: r in s.owned <==> UsesLuaCallback(s.store, r) || r in s.pending || r in s.unregistered)
            && (forall r :: Leaked(s, {}, r) <==> r in s.unregistered)
  {
    var s0 := NewSession({});
    NewSessionOk({});
    TurnsOk(s0, turns);
    TurnsKeep(s0, turns);
    TurnsStay(s0, turns);
  }

  /** Given up: thrown away by some call or refused by the host, and since then neither taken
      into use nor queued again nor freed. */
  predicate GivenUp(s: Session, reference: nat) {
    reference in s.discarded && Leaked(s, {}, reference)
  }

  /** Whatever the host refuses and whatever its code throws away: in every history the
      references not freed are exactly those used, queued, of a failed registration or given
      up, and the last two are the leaked ones. */
  lemma UnfreedExactly(refuses: set<nat>, turns: seq<Turn>)
    ensures var s := TakeTurns(NewSession(refuses), turns);
            && (forall r :: r in s.owned
                  <==> UsesLuaCallback(s.store, r) || r in s.pending || r in s.unregistered || GivenUp(s, r))
            && (forall r :: Leaked(s, {}, r) <==> r in s.unregistered || GivenUp(s, r))
  {
    var s0 := NewSession(refuses);
    NewSessionOk(refuses);
    TurnsOk(s0, turns);
    TurnsStay(s0, turns);
  }

  // ----- when the queue is empty at depth zero

  /** A call that has something to remove, so that it releases: at depth zero with a host,
      the queue goes with it. */
  predicate Releases(s: Session, step: Step) {
    match step
    case DelAutocmd(apiId) => apiId != 0 && Dropped(s.store, WithApiId(apiId)) != []
    case DelGroup(id) => id in s.store.groups && s.store.groups[id].Live?
    case DelGroupNamed(name) =>
      name in s.store.names && s.store.names[name] in s.store.groups && s.store.groups[s.store.names[name]].Live?
    case ClearAutocmds(filter) => filter.group.Some? && LiveGroup(s.store, filter.group.value)
    case Execute(k, _) => k < |s.plans| && SomeLive(s.store, s.plans[k])
    case _ => false
  }

  predicate SomeLive(s: Store, plan: seq<Action>) {
    exists a :: a in plan && LiveEntry(s, a.id)
  }

  predicate StepsRelease(s: Session, steps: Steps)
    decreases steps
  {
    match steps
    case Done => false
    case Then(step, rest) => Releases(s, step) || StepsRelease(RunStep(s, step), rest)
  }

  predicate TurnsRelease(s: Session, turns: seq<Turn>)
    decreases |turns|
  {
    && turns != []
    && ((turns[0].Calls? && StepsRelease(s, turns[0].steps)) || TurnsRelease(TakeTurn(s, turns[0]), turns[1..]))
  }

  lemma {:induction false} PlanQueue(s: Session, plan: seq<Action>, runs: Runs, frame: nat)
    requires Inv(s, {}) && s.depth == 0 && s.slots > 0 && PlanOk(s, plan) && frame < s.frames
    requires plan != [] ==> Below(s.trace, frame, plan[0].id)
    ensures ExecutePlan(s, plan, runs, frame).0.pending == if SomeLive(s.store, plan) then [] else s.pending
    decreases |plan|
  {
    if plan != [] {
      hide Inv;
      var a, others := plan[0], plan[1..];
      assert plan == [a] + others;
      assert others != [] ==> a.id < others[0].id;
      if !LiveEntry(s.store, a.id) {
        PlanQueue(s, others, runs, frame);
      } else {
        var (s1, removed) := Consume(s, a);
        var (s2, outcome) := WithExecutor(s1, a, runs, frame);
        var (s3, cleaned) := Settle(s2, a, outcome, removed);
        ActionRunsOk(s, a, runs, frame, {});
        hide Consume;
        hide WithExecutor;
        hide Settle;
        if outcome != Fail && cleaned {
          PlanStays(s, s3, others);
          ExecutePlanOk(s3, others, Next(runs), frame, {});
        }
      }
    }
  }

  lemma ReleaseDrains(s: Session, kinds: seq<Kind>)
    requires Inv(s, LuaRefs(kinds)) && s.depth == 0 && s.slots > 0
    ensures ReleaseRemoved(s, kinds).0.pending == []
  {
    assert {} + LuaRefs(kinds) == LuaRefs(kinds);
    ReleaseRemovedOk(s, kinds, {});
  }

  /** A removal that releases, made at depth zero with a host, drains the queue. */
  lemma RemovalDrains(s: Session, doomed: Entry -> bool)
    requires Inv(s, {}) && s.depth == 0 && s.slots > 0
    ensures StripAndRelease(s, doomed).pending == []
  {
    StripOk(s, doomed, {});
    assert {} + LuaRefs(Dropped(s.store, doomed)) == LuaRefs(Dropped(s.store, doomed));
    ReleaseDrains(Strip(s, doomed), Dropped(s.store, doomed));
  }

  lemma GroupDrains(s: Session, id: GroupId)
    requires Inv(s, {}) && s.depth == 0 && s.slots > 0
    requires id in s.store.groups && s.store.groups[id].Live?
    ensures DeleteAugroup(s, id).pending == []
  {
    var store, gone := DeleteGroup(s.store, id).value, Retain(s.store.entries, InGroup(id));
    DeleteGroupShrinks(s.store, id);
    ReplaceOk(s, store, gone, {});
    assert {} + LuaRefs(Kinds(gone)) == LuaRefs(Kinds(gone));
    ReleaseDrains(Replace(s, store, gone), Kinds(gone));
  }

  lemma StepQueue(s: Session, step: Step)
    requires Inv(s, {}) && s.depth == 0 && s.slots > 0
    ensures RunStep(s, step).pending == if Releases(s, step) then [] else s.pending
  {
    hide Inv;
    match step
    case DelAutocmd(apiId) => RemovalDrains(s, WithApiId(apiId));
    case DelGroup(id) =>
      if Releases(s, step) {
        GroupDrains(s, id);
      }
    case DelGroupNamed(name) =>
      if Releases(s, step) {
        GroupDrains(s, s.store.names[name]);
      }
    case ClearAutocmds(filter) => RemovalDrains(s, ByFilter(s.store, filter));
    case Execute(k, runs) =>
      if k < |s.plans| {
        var u := s.(frames := s.frames + 1);
        FrameOpens(s, k, {});
        PlanQueue(u, s.plans[k], runs, s.frames);
      }
    case _ =>
  }

  lemma {:induction false} StepsQueue(s: Session, steps: Steps)
    requires Inv(s, {}) && s.depth == 0 && s.slots > 0
    ensures RunSteps(s, steps).pending == if StepsRelease(s, steps) then [] else s.pending
    decreases steps
  {
    hide Inv;
    match steps
    case Done =>
    case Then(step, rest) =>
      StepQueue(s, step);
      RunStepOk(s, step, {});
      RunStepsOk(RunStep(s, step), rest, {});
      hide RunStep;
      hide Releases;
      StepsQueue(RunStep(s, step), rest);
  }

  lemma {:induction false} TurnsQueue(s: Session, turns: seq<Turn>)
    requires Inv(s, {}) && s.depth == 0 && s.slots > 0
    ensures TakeTurns(s, turns).pending == if TurnsRelease(s, turns) then [] else s.pending
    decreases |turns|
  {
    hide Inv;
    if turns != [] {
      var t := TakeTurn(s, turns[0]);
      TurnOk(s, turns[0]);
      if turns[0].Calls? {
        StepsQueue(s, turns[0].steps);
      }
      assert t.pending == if turns[0].Calls? && StepsRelease(s, turns[0].steps) then [] else s.pending;
      hide TakeTurn;
      hide StepsRelease;
      TurnsQueue(t, turns[1..]);
    }
  }

  lemma {:induction false} TurnsConcat(s: Session, a: seq<Turn>, b: seq<Turn>)
    ensures TakeTurns(s, a + b) == TakeTurns(TakeTurns(s, a), b)
    decreases |a|
  {
    if a == [] {
      assert a + b == b;
    } else {
      assert (a + b)[1..] == a[1..] + b;
      TurnsConcat(TakeTurn(s, a[0]), a[1..], b);
    }
  }

  /** Once hosts are installed, the queue is empty at depth zero exactly if it was empty when
      they were installed, or some call since then had something to release. */
  lemma QueueEmptyIff(refuses: set<nat>, before: seq<Turn>, after: seq<Turn>)
    ensures var installed := TakeTurns(NewSession(refuses), before + [Install]);
            && TakeTurns(NewSession(refuses), before + [Install] + after) == TakeTurns(installed, after)
            && (TakeTurns(installed, after).pending == []
                <==> TakeTurns(NewSession(refuses), before).pending == [] || TurnsRelease(installed, after))
  {
    var s0 := NewSession(refuses);
    var s1 := TakeTurns(s0, before);
    NewSessionOk(refuses);
    TurnsOk(s0, before);
    InstallOk(s1);
    hide Inv;
    TurnsConcat(s0, before, [Install]);
    TurnsConcat(s0, before + [Install], after);
    assert [Install][1..] == [] && TakeTurns(s1, [Install]) == InstallHosts(s1);
    TurnsQueue(InstallHosts(s1), after);
  }

  // ----- removals that throw payloads away

  predicate OnlyUsedBy(s: Store, doomed: Entry -> bool, reference: nat) {
    && UsesLuaCallback(s, reference)
    && forall e :: e in s.entries && e.kind == LuaCallback(reference) ==> doomed(e)
  }

  lemma DropUses(s: Store, doomed: Entry -> bool, reference: nat)
    ensures UsesLuaCallback(Drop(s, doomed), reference)
       <==> exists e :: e in s.entries && e.kind == LuaCallback(reference) && !doomed(e)
  {
    RetainKeeps(s.entries, Not(doomed));
    if e :| e in s.entries && e.kind == LuaCallback(reference) && !doomed(e) {
      assert e in Drop(s, doomed).entries;
    }
  }

  predicate HeldOnlyBy(s: Session, doomed: Entry -> bool, inflight: set<nat>, reference: nat) {
    OnlyUsedBy(s.store, doomed, reference) && reference !in s.pending && reference !in inflight
  }

  /** A removal that throws payloads away leaks exactly the references that only removed
      definitions held, that no queue has and that no live frame is about to release. */
  lemma DiscardLeaks(s: Session, doomed: Entry -> bool, inflight: set<nat>, reference: nat)
    requires Inv(s, inflight) && UsesLuaCallback(s.store, reference)
    ensures Leaked(StripAndDiscard(s, doomed), inflight, reference)
       <==> HeldOnlyBy(s, doomed, inflight, reference)
  {
    DropUses(s.store, doomed, reference);
  }

  /** Creating an existing group with its definitions cleared leaks what only the group's
      definitions held, at any depth; and it stays leaked whatever runs there afterwards. */
  lemma ClearLeaks(s: Session, name: string, inflight: set<nat>, reference: nat, steps: Steps)
    requires Inv(s, inflight) && Outermost(s, inflight)
    requires name in s.store.names && name != [] && UsesLuaCallback(s.store, reference)
    ensures var held := HeldOnlyBy(s, InGroup(s.store.names[name]), inflight, reference);
            && (Leaked(Augroup(s, name, true), inflight, reference) <==> held)
            && (held ==> Leaked(RunSteps(Augroup(s, name, true), steps), inflight, reference))
  {
    DiscardLeaks(s, InGroup(s.store.names[name]), inflight, reference);
    AugroupOk(s, name, true, inflight);
    StepsStay(Augroup(s, name, true), steps, inflight);
  }

  /** Wiping a buffer leaks in the same way what only its buffer-local definitions held. */
  lemma WipeLeaks(s: Session, buffer: Buffer, inflight: set<nat>, reference: nat, steps: Steps)
    requires Inv(s, inflight) && Outermost(s, inflight) && UsesLuaCallback(s.store, reference)
    ensures var held, t := HeldOnlyBy(s, LocalTo(buffer), inflight, reference), RunStep(s, WipeBuffer(buffer));
            && (Leaked(t, inflight, reference) <==> held)
            && (held ==> Leaked(RunSteps(t, steps), inflight, reference))
  {
    DiscardLeaks(s, LocalTo(buffer), inflight, reference);
    RunStepOk(s, WipeBuffer(buffer), inflight);
    StepsStay(RunStep(s, WipeBuffer(buffer)), steps, inflight);
  }

  /** Clearing the same group through the releasing remover leaks none of them. */
  lemma ReleasingClearDoesNot(s: Session, group: GroupId, reference: nat)
    requires Inv(s, {}) && s.depth == 0 && s.slots > 0 && s.refuses == {}
    requires UsesLuaCallback(s.store, reference) && reference !in s.discarded && reference !in s.unregistered
    ensures !Leaked(StripAndRelease(s, InGroup(group)), {}, reference)
  {
    StripOk(s, InGroup(group), {});
    ReleaseRemovedOk(Strip(s, InGroup(group)), Dropped(s.store, InGroup(group)), {});
  }
}
