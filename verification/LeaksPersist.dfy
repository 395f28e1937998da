/** A leaked Lua reference stays leaked, whatever the host does afterwards. */
module LeaksPersist {
  import opened AutocmdStore
  import opened FiringModel
  import opened FiringSafety
  import opened FiringTheorems

  /** A reference nothing will free: owned, of no definition, not queued, and not on its way
      to a release by a live frame. */
  predicate Leaked(s: Session, inflight: set<nat>, reference: nat) {
    && reference in s.owned && !UsesLuaCallback(s.store, reference)
    && reference !in s.pending && reference !in inflight
  }

  /** Leaks of one session are leaks of a later one, and so is every reference whose
      registration failed in between. */
  ghost predicate LeaksStay(s: Session, f: set<nat>, t: Session, g: set<nat>) {
    && (forall r :: Leaked(s, f, r) ==> Leaked(t, g, r))
    && s.unregistered <= t.unregistered
    && forall r :: r in t.unregistered && r !in s.unregistered ==> Leaked(t, g, r)
  }

  lemma StayTrans(s: Session, f: set<nat>, t: Session, g: set<nat>, u: Session, h: set<nat>)
    requires LeaksStay(s, f, t, g) && LeaksStay(t, g, u, h)
    ensures LeaksStay(s, f, u, h)
  {
  }

  // ----- removing and releasing

  lemma UnusedIn(s: Store, gone: seq<Entry>, reference: nat)
    requires !UsesLuaCallback(s, reference) && forall e :: e in gone ==> e in s.entries
    ensures reference !in LuaRefs(Kinds(gone))
  {
    if reference in LuaRefs(Kinds(gone)) {
      KindsFrom(gone, LuaCallback(reference));
    }
  }

  /** What a removal takes out comes into flight. */
  lemma ReplaceStays(s: Session, store: Store, gone: seq<Entry>, f: set<nat>)
    requires forall e :: e in store.entries ==> e in s.store.entries
    requires forall e :: e in gone ==> e in s.store.entries
    ensures LeaksStay(s, f, Replace(s, store, gone), f + LuaRefs(Kinds(gone)))
  {
    forall r | Leaked(s, f, r)
      ensures Leaked(Replace(s, store, gone), f + LuaRefs(Kinds(gone)), r)
    {
      UnusedIn(s.store, gone, r);
    }
  }

  lemma StripStays(s: Session, doomed: Entry -> bool, f: set<nat>)
    ensures LeaksStay(s, f, Strip(s, doomed), f + LuaRefs(Dropped(s.store, doomed)))
  {
    RetainKeeps(s.store.entries, doomed);
    RetainKeeps(s.store.entries, Not(doomed));
    ReplaceStays(s, Drop(s.store, doomed), Retain(s.store.entries, doomed), f);
  }

  /** A release touches only the references it is given. */
  lemma {:induction false} ReleaseEachStays(s: Session, references: seq<nat>, f: set<nat>)
    ensures LeaksStay(s, f + Elements(references), ReleaseEach(s, references).0, f)
    decreases |references|
  {
    if references != [] {
      var r, rest := references[0], references[1..];
      assert Elements(references) == Elements(rest) + {r} by {
        assert references == [r] + rest;
      }
      if UsesLuaCallback(s.store, r) {
        ReleaseEachStays(s, rest, f);
      } else {
        var (t, ok) := ReleaseOne(s, r);
        assert LeaksStay(s, f + Elements(references), t, f + Elements(rest));
        if ok {
          ReleaseEachStays(t, rest, f);
          StayTrans(s, f + Elements(references), t, f + Elements(rest), ReleaseEach(t, rest).0, f);
        }
      }
    }
  }

  lemma {:induction false} CollectHas(references: seq<nat>, kinds: seq<Kind>)
    ensures forall r :: r in Collect(references, kinds) <==> r in references || r in LuaRefs(kinds)
    decreases |kinds|
  {
    if kinds != [] {
      var next := if kinds[0].LuaCallback? then Enqueue(references, kinds[0].reference) else references;
      CollectHas(next, kinds[1..]);
      assert kinds == [kinds[0]] + kinds[1..];
    }
  }

  lemma ReleaseRemovedStays(s: Session, kinds: seq<Kind>, f: set<nat>)
    ensures LeaksStay(s, f + LuaRefs(kinds), ReleaseRemoved(s, kinds).0, f)
  {
    var references := Collect(s.pending, kinds);
    var u := s.(pending := []);
    CollectHas(s.pending, kinds);
    assert LeaksStay(s, f + LuaRefs(kinds), u, f + Elements(references));
    ReleaseEachStays(u, references, f);
  }

  lemma StripAndReleaseStays(s: Session, doomed: Entry -> bool, f: set<nat>)
    ensures LeaksStay(s, f, StripAndRelease(s, doomed), f)
  {
    var kinds := Dropped(s.store, doomed);
    StripStays(s, doomed, f);
    ReleaseRemovedStays(Strip(s, doomed), kinds, f);
    hide *;
    StayTrans(s, f, Strip(s, doomed), f + LuaRefs(kinds), ReleaseRemoved(Strip(s, doomed), kinds).0, f);
    StripAndReleaseIs(s, doomed);
  }

  lemma StripAndReleaseIs(s: Session, doomed: Entry -> bool)
    ensures StripAndRelease(s, doomed) == ReleaseRemoved(Strip(s, doomed), Dropped(s.store, doomed)).0
  {
  }

  lemma StripAndDiscardStays(s: Session, doomed: Entry -> bool, f: set<nat>)
    ensures LeaksStay(s, f, StripAndDiscard(s, doomed), f)
  {
    StripStays(s, doomed, f);
  }

  lemma DeleteAugroupStays(s: Session, id: GroupId, f: set<nat>)
    ensures LeaksStay(s, f, DeleteAugroup(s, id), f)
  {
    if id in s.store.groups && s.store.groups[id].Live? {
      var store, gone := DeleteGroup(s.store, id).value, Retain(s.store.entries, InGroup(id));
      RetainKeeps(s.store.entries, InGroup(id));
      RetainKeeps(s.store.entries, Not(InGroup(id)));
      ReplaceStays(s, store, gone, f);
      ReleaseRemovedStays(Replace(s, store, gone), Kinds(gone), f);
    }
  }

  // ----- registering

  lemma CreateStays(s: Session, events: seq<Event>, patterns: string, payload: Payload, options: Options, f: set<nat>)
    requires Inv(s, f)
    ensures LeaksStay(s, f, CreateAutocmd(s, events, patterns, payload, options), f)
  {
    var (u, kind) := Acquire(s, payload);
    var r := Register(u.store, events, patterns, kind, options, true);
    hide Register;
    assert LuaRefs([kind]) == if kind.LuaCallback? then {kind.reference} else {};
    if r.Ok? {
      RegisterGrows(u.store, events, patterns, kind, options, true);
    }
  }

  lemma CreateLegacyStays(s: Session, events: seq<Event>, patterns: string, command: string, options: Options,
                          f: set<nat>)
    requires Inv(s, f)
    ensures LeaksStay(s, f, RunStep(s, CreateLegacy(events, patterns, command, options)), f)
  {
    var r := Register(s.store, events, patterns, ExString(command), options, false);
    hide Register;
    if r.Ok? {
      RegisterGrows(s.store, events, patterns, ExString(command), options, false);
    }
  }

  // ----- frames

  lemma ConsumeStays(s: Session, a: Action, f: set<nat>)
    ensures var (t, removed) := Consume(s, a); LeaksStay(s, f, t, f + LuaRefs(removed))
  {
    if a.once {
      var gone := Retain(s.store.entries, OnceWithId(a.id));
      RetainKeeps(s.store.entries, OnceWithId(a.id));
      RetainKeeps(s.store.entries, Not(OnceWithId(a.id)));
      forall r | Leaked(s, f, r)
        ensures r !in LuaRefs(Kinds(gone))
      {
        UnusedIn(s.store, gone, r);
      }
      LastIsDropped(s.store, OnceWithId(a.id));
    }
  }

  lemma LastIsDropped(s: Store, doomed: Entry -> bool)
    ensures LuaRefs(Listed(DroppedLast(s, doomed))) <= LuaRefs(Dropped(s, doomed))
  {
  }

  lemma SettleStays(s: Session, a: Action, outcome: Outcome, removed: seq<Kind>, f: set<nat>)
    ensures LeaksStay(s, f + LuaRefs(removed), Settle(s, a, outcome, removed).0, f)
  {
    if outcome == Delete {
      var more := Listed(DroppedLast(s.store, WithId(a.id)));
      StripStays(s, WithId(a.id), f + LuaRefs(removed));
      LastIsDropped(s.store, WithId(a.id));
      assert f + LuaRefs(removed) + LuaRefs(more) == f + LuaRefs(removed + more);
      ReleaseRemovedStays(Strip(s, WithId(a.id)), removed + more, f);
    } else {
      ReleaseRemovedStays(s, removed, f);
    }
  }

  lemma {:induction false} ExecutorStays(s: Session, a: Action, runs: Runs, frame: nat, f: set<nat>)
    requires Inv(s, f) && MayRun(s, a, frame)
    ensures LeaksStay(s, f, WithExecutor(s, a, runs, frame).0, f)
    decreases runs, 0
  {
    var forks := runs.Visit? && runs.forks;
    var s' := Grow(s, forks);
    ExecutorIs(s, a, runs, frame);
    GrowSlotsOk(s, forks, f);
    GrowStays(s, a, frame, forks, f);
    if s'.depth < s'.slots {
      var inside := Enter(s', a, frame);
      assert MayRun(s', a, frame);
      EnterOk(s', a, frame, f);
      assert Outermost(inside, f);
      hide *;
      SameStays(inside, f);
      if runs.Visit? {
        StepsStay(inside, runs.body, f);
        FrameStays(s', a, frame, RunSteps(inside, runs.body), f);
      } else {
        FrameStays(s', a, frame, inside, f);
      }
      StayTrans(s, f, s', f, WithExecutor(s, a, runs, frame).0, f);
    }
  }

  lemma ExecutorIs(s: Session, a: Action, runs: Runs, frame: nat)
    ensures var s' := Grow(s, runs.Visit? && runs.forks);
            var inside := Enter(s', a, frame);
            WithExecutor(s, a, runs, frame).0
            == if s'.depth >= s'.slots then s'
               else if runs.Visit? then Leave(RunSteps(inside, runs.body))
               else Leave(inside)
  {
    hide RunSteps;
  }

  lemma GrowStays(s: Session, a: Action, frame: nat, forks: bool, f: set<nat>)
    ensures LeaksStay(s, f, Grow(s, forks), f) && (MayRun(s, a, frame) ==> MayRun(Grow(s, forks), a, frame))
  {
  }

  lemma SameStays(s: Session, f: set<nat>)
    ensures LeaksStay(s, f, s, f)
  {
  }

  lemma FrameStays(s: Session, a: Action, frame: nat, u: Session, f: set<nat>)
    requires LeaksStay(Enter(s, a, frame), f, u, f)
    ensures LeaksStay(s, f, Leave(u), f)
  {
    forall r | Leaked(s, f, r)
      ensures Leaked(Leave(u), f, r)
    {
      assert Leaked(Enter(s, a, frame), f, r) && Leaked(u, f, r);
    }
    forall r | r in u.unregistered && r !in s.unregistered
      ensures Leaked(Leave(u), f, r)
    {
      assert Leaked(u, f, r);
    }
  }

  /** One action of a plan, from its consumption to its settlement. */
  lemma {:induction false} ActionStaysLeaked(s: Session, a: Action, runs: Runs, frame: nat, f: set<nat>)
    requires Inv(s, f) && Outermost(s, f) && ActionOk(s, a) && LiveEntry(s.store, a.id)
    requires frame < s.frames && Below(s.trace, frame, a.id)
    ensures var (s1, removed) := Consume(s, a);
            var (s2, outcome) := WithExecutor(s1, a, runs, frame);
            LeaksStay(s, f, Settle(s2, a, outcome, removed).0, f)
    decreases runs, 1
  {
    hide *;
    var (s1, removed) := Consume(s, a);
    var g := f + LuaRefs(removed);
    ConsumeOk(s, a, frame, f);
    ConsumeStays(s, a, f);
    var (s2, outcome) := WithExecutor(s1, a, runs, frame);
    ExecutorStays(s1, a, runs, frame, g);
    SettleStays(s2, a, outcome, removed, f);
    StayTrans(s, f, s1, g, s2, g);
    StayTrans(s, f, s2, g, Settle(s2, a, outcome, removed).0, f);
  }

  lemma {:induction false} PlanStaysLeaked(s: Session, plan: seq<Action>, runs: Runs, frame: nat, f: set<nat>)
    requires Inv(s, f) && Outermost(s, f) && PlanOk(s, plan) && frame < s.frames
    requires plan != [] ==> Below(s.trace, frame, plan[0].id)
    ensures LeaksStay(s, f, ExecutePlan(s, plan, runs, frame).0, f)
    decreases runs, 2, |plan|
  {
    if plan != [] {
      hide Inv;
      hide LeaksStay;
      var a, others := plan[0], plan[1..];
      assert forall b :: b in others ==> b in plan;
      assert others != [] ==> a.id < others[0].id;
      if !LiveEntry(s.store, a.id) {
        PlanStaysLeaked(s, others, runs, frame, f);
      } else {
        var (s1, removed) := Consume(s, a);
        var (s2, outcome) := WithExecutor(s1, a, runs, frame);
        var (s3, cleaned) := Settle(s2, a, outcome, removed);
        ActionRunsOk(s, a, runs, frame, f);
        ActionStaysLeaked(s, a, runs, frame, f);
        hide Consume;
        hide WithExecutor;
        hide Settle;
        if outcome != Fail && cleaned {
          PlanStays(s, s3, others);
          PlanStaysLeaked(s3, others, Next(runs), frame, f);
          StayTrans(s, f, s3, f, ExecutePlan(s3, others, Next(runs), frame).0, f);
        }
      }
    }
  }

  // ----- whole runs

  lemma {:induction false} StepStays(s: Session, step: Step, f: set<nat>)
    requires Inv(s, f) && Outermost(s, f)
    ensures LeaksStay(s, f, RunStep(s, step), f)
    decreases step, 0
  {
    hide Inv;
    match step
    case Create(events, patterns, payload, options) => CreateStays(s, events, patterns, payload, options, f);
    case CreateLegacy(events, patterns, command, options) =>
        CreateLegacyStays(s, events, patterns, command, options, f);
    case DelAutocmd(apiId) => StripAndReleaseStays(s, WithApiId(apiId), f);
    case DelGroup(id) => DeleteAugroupStays(s, id, f);
    case DelGroupNamed(name) =>
      if name in s.store.names {
        DeleteAugroupStays(s, s.store.names[name], f);
      }
    case ClearAutocmds(filter) => StripAndReleaseStays(s, ByFilter(s.store, filter), f);
    case CreateAugroup(name, _) =>
      if name in s.store.names {
        StripAndDiscardStays(s, InGroup(s.store.names[name]), f);
      }
    case WipeBuffer(buffer) => StripAndDiscardStays(s, LocalTo(buffer), f);
    case Execute(k, runs) =>
      if k < |s.plans| {
        var u := s.(frames := s.frames + 1);
        FrameOpens(s, k, f);
        PlanStaysLeaked(u, s.plans[k], runs, s.frames, f);
      }
    case _ =>
  }

  lemma {:induction false} StepsStay(s: Session, steps: Steps, f: set<nat>)
    requires Inv(s, f) && Outermost(s, f)
    ensures LeaksStay(s, f, RunSteps(s, steps), f)
    decreases steps, 0
  {
    hide Inv;
    match steps
    case Done =>
    case Then(step, rest) =>
      var t := RunStep(s, step);
      StepStays(s, step, f);
      RunStepOk(s, step, f);
      hide RunStep;
      hide LeaksStay;
      StepsStay(t, rest, f);
      StayTrans(s, f, t, f, RunSteps(t, rest), f);
  }

  lemma {:induction false} TurnsStay(s: Session, turns: seq<Turn>)
    requires Inv(s, {}) && s.depth == 0
    ensures LeaksStay(s, {}, TakeTurns(s, turns), {})
    decreases |turns|
  {
    hide Inv;
    if turns != [] {
      var t := TakeTurn(s, turns[0]);
      TurnOk(s, turns[0]);
      if turns[0].Calls? {
        StepsStay(s, turns[0].steps, {});
      }
      assert LeaksStay(s, {}, t, {});
      hide TakeTurn;
      hide LeaksStay;
      TurnsStay(t, turns[1..]);
      StayTrans(s, {}, t, {}, TakeTurns(t, turns[1..]), {});
    }
  }

  /** A reference leaked at any depth is still leaked after any nested run there. */
  lemma LeakedThroughRuns(s: Session, steps: Steps, inflight: set<nat>, reference: nat)
    requires Inv(s, inflight) && Outermost(s, inflight) && Leaked(s, inflight, reference)
    ensures Leaked(RunSteps(s, steps), inflight, reference)
  {
    StepsStay(s, steps, inflight);
  }

  /** A reference leaked at depth zero is never freed, used or queued again. */
  lemma LeakedForever(s: Session, turns: seq<Turn>, reference: nat)
    requires Inv(s, {}) && s.depth == 0 && Leaked(s, {}, reference)
    ensures Leaked(TakeTurns(s, turns), {}, reference)
  {
    TurnsStay(s, turns);
  }
}
