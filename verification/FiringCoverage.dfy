/** Which definitions of a plan run, and what an answer of a plan says.

    Every departure of a definition from the store is observed (`Keeps`), so a plan that answers
    ok has run each of its definitions that was there when it began and did not leave meanwhile;
    and it answers ok exactly if no handler that ran failed and no free was refused. For handlers
    that make no API calls the run is determined: `SilentPlanExact`. */
module FiringCoverage {
  import opened AutocmdStore
  import opened FiringModel
  import opened FiringSafety

  // ----- every departure is observed

  predicate Departed(trace: seq<Obs>, id: nat) {
    Removed(id) in trace || Consumed(id) in trace
  }

  /** What left the store is on the trace, inside a frame no free is attempted, and a reference
      whose free the host refuses stays owned. */
  ghost predicate Keeps(s: Session, t: Session) {
    && t.refuses == s.refuses && (forall r :: r in s.owned && r in s.refuses ==> r in t.owned)
    && (forall o :: o in s.trace ==> o in t.trace)
    && (forall e :: e in s.store.entries ==> e in t.store.entries || Departed(t.trace, e.id))
    && (s.depth > 0 ==> t.refused == s.refused)
  }

  lemma KeepsTrans(s: Session, t: Session, u: Session)
    requires Keeps(s, t) && Keeps(t, u) && t.depth == s.depth
    ensures Keeps(s, u)
  {
    forall e | e in s.store.entries
      ensures e in u.store.entries || Departed(u.trace, e.id)
    {
    }
  }

  /** A release answers ok exactly if no free was refused. */
  lemma {:induction false} ReleaseEachKeeps(s: Session, references: seq<nat>)
    ensures var (t, ok) := ReleaseEach(s, references);
            && t.store == s.store && t.trace == s.trace && t.plans == s.plans
            && t.depth == s.depth && t.slots == s.slots && t.refuses == s.refuses
            && (forall r :: r in s.owned && r in s.refuses ==> r in t.owned)
            && |s.refused| <= |t.refused|
            && (ok <==> t.refused == s.refused) && (s.depth > 0 || s.slots == 0 ==> ok)
    decreases |references|
  {
    if references != [] {
      if UsesLuaCallback(s.store, references[0]) {
        ReleaseEachKeeps(s, references[1..]);
      } else {
        ReleaseEachKeeps(ReleaseOne(s, references[0]).0, references[1..]);
      }
    }
  }

  lemma ReleaseKeeps(s: Session, kinds: seq<Kind>)
    ensures var (t, ok) := ReleaseRemoved(s, kinds);
            && t.store == s.store && t.trace == s.trace && t.plans == s.plans
            && t.depth == s.depth && t.slots == s.slots
            && (ok <==> t.refused == s.refused) && (s.depth > 0 || s.slots == 0 ==> ok) && Keeps(s, t)
  {
    ReleaseEachKeeps(s.(pending := []), Collect(s.pending, kinds));
  }

  lemma ReplaceKeeps(s: Session, store: Store, gone: seq<Entry>)
    requires forall e :: e in s.store.entries ==> e in store.entries || e in gone
    ensures Keeps(s, Replace(s, store, gone))
  {
    var t := Replace(s, store, gone);
    forall e | e in gone
      ensures Removed(e.id) in t.trace
    {
      var i :| 0 <= i < |gone| && gone[i] == e;
      assert RemovedIds(gone)[i] == Removed(e.id);
    }
  }

  lemma StripKeeps(s: Session, doomed: Entry -> bool)
    ensures Keeps(s, Strip(s, doomed)) && Strip(s, doomed).depth == s.depth
  {
    RetainKeeps(s.store.entries, doomed);
    RetainKeeps(s.store.entries, Not(doomed));
    ReplaceKeeps(s, Drop(s.store, doomed), Retain(s.store.entries, doomed));
  }

  lemma StripAndReleaseKeeps(s: Session, doomed: Entry -> bool)
    ensures Keeps(s, StripAndRelease(s, doomed))
  {
    StripKeeps(s, doomed);
    ReleaseKeeps(Strip(s, doomed), Dropped(s.store, doomed));
    KeepsTrans(s, Strip(s, doomed), StripAndRelease(s, doomed));
  }

  lemma DeleteAugroupKeeps(s: Session, id: GroupId)
    ensures Keeps(s, DeleteAugroup(s, id))
  {
    if id in s.store.groups && s.store.groups[id].Live? {
      var gone := Retain(s.store.entries, InGroup(id));
      var u := Replace(s, DeleteGroup(s.store, id).value, gone);
      RetainKeeps(s.store.entries, InGroup(id));
      RetainKeeps(s.store.entries, Not(InGroup(id)));
      ReplaceKeeps(s, DeleteGroup(s.store, id).value, gone);
      ReleaseKeeps(u, Kinds(gone));
      KeepsTrans(s, u, DeleteAugroup(s, id));
    }
  }

  lemma CreateKeeps(s: Session, events: seq<Event>, patterns: string, payload: Payload, options: Options)
    ensures Keeps(s, CreateAutocmd(s, events, patterns, payload, options))
  {
    var (u, kind) := Acquire(s, payload);
    RegisterAppends(u.store, events, patterns, kind, options, true);
    hide Register;
  }

  lemma ConsumeKeeps(s: Session, a: Action)
    ensures var t := Consume(s, a).0; Keeps(s, t) && t.depth == s.depth && t.slots == s.slots && t.refused == s.refused
  {
    RetainKeeps(s.store.entries, Not(OnceWithId(a.id)));
    var t := Consume(s, a).0;
    if a.once {
      assert Consumed(a.id) in t.trace;
    }
  }

  lemma SettleKeeps(s: Session, a: Action, outcome: Outcome, removed: seq<Kind>)
    ensures var (t, ok) := Settle(s, a, outcome, removed);
            && Keeps(s, t) && t.depth == s.depth && t.slots == s.slots
            && (ok <==> t.refused == s.refused) && (s.depth > 0 || s.slots == 0 ==> ok)
            && (outcome == Delete ==> !LiveEntry(t.store, a.id)) && (outcome != Delete ==> t.store == s.store)
            && (forall o :: o in t.trace && o.Ran? ==> o in s.trace)
  {
    if outcome == Delete {
      var u := Strip(s, WithId(a.id));
      StripKeeps(s, WithId(a.id));
      RetainKeeps(s.store.entries, Not(WithId(a.id)));
      ReleaseKeeps(u, removed + Listed(DroppedLast(s.store, WithId(a.id))));
      KeepsTrans(s, u, Settle(s, a, outcome, removed).0);
    } else {
      ReleaseKeeps(s, removed);
    }
  }

  lemma FrameKeeps(s: Session, a: Action, frame: nat, u: Session)
    requires Keeps(Enter(s, a, frame), u)
    ensures Keeps(s, Leave(u)) && Leave(u).refused == s.refused
  {
  }

  lemma {:induction false} ExecutorKeeps(s: Session, a: Action, runs: Runs, frame: nat, inflight: set<nat>)
    requires Inv(s, inflight) && MayRun(s, a, frame)
    ensures var t := WithExecutor(s, a, runs, frame).0; Keeps(s, t) && t.refused == s.refused
    decreases runs, 0
  {
    var forks := runs.Visit? && runs.forks;
    var s' := Grow(s, forks);
    GrowSlotsOk(s, forks, inflight);
    if s'.depth < s'.slots {
      var inside := Enter(s', a, frame);
      EnterOk(s', a, frame, inflight);
      hide Inv;
      hide MayRun;
      assert Keeps(inside, inside);
      if runs.Visit? {
        StepsKeep(inside, runs.body, inflight);
      }
      var u := if runs.Visit? then RunSteps(inside, runs.body) else inside;
      FrameKeeps(s', a, frame, u);
      hide RunSteps;
      hide Enter;
      hide Leave;
    }
  }

  /** One stored action of a plan. */
  lemma {:induction false} ActionKeeps(s: Session, a: Action, runs: Runs, frame: nat, inflight: set<nat>)
    requires Inv(s, inflight) && Outermost(s, inflight) && ActionOk(s, a) && LiveEntry(s.store, a.id)
    requires frame < s.frames && Below(s.trace, frame, a.id)
    ensures var (s1, removed) := Consume(s, a);
            var (s2, outcome) := WithExecutor(s1, a, runs, frame);
            var (t, ok) := Settle(s2, a, outcome, removed);
            && Keeps(s, t) && t.depth == s.depth && (ok <==> t.refused == s.refused) && (s.depth > 0 ==> ok)
    decreases runs, 1
  {
    var (s1, removed) := Consume(s, a);
    ConsumeOk(s, a, frame, inflight);
    ConsumeKeeps(s, a);
    var (s2, outcome) := WithExecutor(s1, a, runs, frame);
    WithExecutorOk(s1, a, runs, frame, inflight + LuaRefs(removed));
    ExecutorKeeps(s1, a, runs, frame, inflight + LuaRefs(removed));
    SettleKeeps(s2, a, outcome, removed);
    hide *;
    KeepsTrans(s, s1, s2);
    KeepsTrans(s, s2, Settle(s2, a, outcome, removed).0);
  }

  lemma {:induction false} PlanKeeps(s: Session, plan: seq<Action>, runs: Runs, frame: nat, inflight: set<nat>)
    requires Inv(s, inflight) && Outermost(s, inflight) && PlanOk(s, plan) && frame < s.frames
    requires plan != [] ==> Below(s.trace, frame, plan[0].id)
    ensures Keeps(s, ExecutePlan(s, plan, runs, frame).0)
    decreases runs, 2, |plan|
  {
    if plan != [] {
      hide Inv;
      hide Keeps;
      var a, others := plan[0], plan[1..];
      assert forall b :: b in others ==> b in plan;
      assert others != [] ==> a.id < others[0].id;
      if !LiveEntry(s.store, a.id) {
        PlanKeeps(s, others, runs, frame, inflight);
      } else {
        var (s1, removed) := Consume(s, a);
        var (s2, outcome) := WithExecutor(s1, a, runs, frame);
        var (s3, cleaned) := Settle(s2, a, outcome, removed);
        ActionRunsOk(s, a, runs, frame, inflight);
        ActionKeeps(s, a, runs, frame, inflight);
        hide Consume;
        hide WithExecutor;
        hide Settle;
        if outcome != Fail && cleaned {
          PlanStays(s, s3, others);
          PlanKeeps(s3, others, Next(runs), frame, inflight);
          KeepsTrans(s, s3, ExecutePlan(s3, others, Next(runs), frame).0);
        }
      }
    }
  }

  lemma {:induction false} StepKeeps(s: Session, step: Step, inflight: set<nat>)
    requires Inv(s, inflight) && Outermost(s, inflight)
    ensures Keeps(s, RunStep(s, step))
    decreases step, 0
  {
    hide Inv;
    match step
    case Create(events, patterns, payload, options) => CreateKeeps(s, events, patterns, payload, options);
    case CreateLegacy(events, patterns, command, options) =>
      RegisterAppends(s.store, events, patterns, ExString(command), options, false);
      hide Register;
    case DelAutocmd(apiId) => StripAndReleaseKeeps(s, WithApiId(apiId));
    case DelGroup(id) => DeleteAugroupKeeps(s, id);
    case DelGroupNamed(name) =>
      if name in s.store.names {
        DeleteAugroupKeeps(s, s.store.names[name]);
      }
    case ClearAutocmds(filter) => StripAndReleaseKeeps(s, ByFilter(s.store, filter));
    case CreateAugroup(name, clear) =>
      if name in s.store.names {
        StripKeeps(s, InGroup(s.store.names[name]));
      }
    case DelGroupLegacy(id) =>
    case WipeBuffer(buffer) => StripKeeps(s, LocalTo(buffer));
    case Snapshot(event, within, context) =>
      hide Plan;
    case Execute(k, runs) =>
      if k < |s.plans| {
        FrameOpens(s, k, inflight);
        PlanKeeps(s.(frames := s.frames + 1), s.plans[k], runs, s.frames, inflight);
        hide ExecutePlan;
      }
  }

  lemma {:induction false} StepsKeep(s: Session, steps: Steps, inflight: set<nat>)
    requires Inv(s, inflight) && Outermost(s, inflight)
    ensures Keeps(s, RunSteps(s, steps))
    decreases steps, 0
  {
    hide Inv;
    if steps.Then? {
      var t := RunStep(s, steps.step);
      RunStepOk(s, steps.step, inflight);
      StepKeeps(s, steps.step, inflight);
      StepsKeep(t, steps.rest, inflight);
      hide RunStep;
      hide Keeps;
      KeepsTrans(s, t, RunSteps(t, steps.rest));
    }
  }

  /** What a host is asked for at depth zero: it frees the unused references in order, up to the
      first that it refuses, and the answer is ok exactly if it refuses none. */
  lemma {:induction false} ReleaseEachExact(s: Session, references: seq<nat>) returns (k: nat)
    requires s.depth == 0 && s.slots > 0
    ensures k <= |references| && (forall i :: 0 <= i < k ==> !Refuses(s, references[i]))
    ensures k < |references| ==> Refuses(s, references[k])
    ensures var (t, ok) := ReleaseEach(s, references);
            && (ok <==> k == |references|) && t.pending == s.pending
            && t.refused == s.refused + (if k < |references| then [references[k]] else [])
            && forall r :: r in t.owned <==> r in s.owned && !Unused(s, references[..k], r)
    decreases |references|
  {
    if references == [] {
      return 0;
    }
    var r, rest := references[0], references[1..];
    if Refuses(s, r) {
      assert references[..0] == [];
      return 0;
    }
    var u := if UsesLuaCallback(s.store, r) then s else ReleaseOne(s, r).0;
    k := ReleaseEachExact(u, rest);
    assert forall i :: 0 < i < |references| ==> references[i] == rest[i - 1];
    assert references[..k + 1] == [r] + rest[..k];
    k := k + 1;
  }

  predicate Refuses(s: Session, reference: nat) {
    reference in s.refuses && !UsesLuaCallback(s.store, reference)
  }

  predicate Unused(s: Session, references: seq<nat>, reference: nat) {
    reference in references && !UsesLuaCallback(s.store, reference)
  }

  // ----- which definitions of a plan run

  /** How the k-th handler of a plan ends; past the ones named, by keeping its definition. */
  function Handler(runs: Runs, k: nat): Outcome {
    if runs.Quiet? then Keep else if k == 0 then runs.outcome else Handler(runs.rest, k - 1)
  }

  /** The definitions that a frame executed, in order. */
  function RunBy(trace: seq<Obs>, frame: nat): seq<nat> {
    if trace == [] then []
    else
      var o := trace[|trace| - 1];
      RunBy(trace[..|trace| - 1], frame) + if o.Ran? && o.frame == frame then [o.id] else []
  }

  lemma {:induction false} RunByMore(trace: seq<Obs>, more: seq<Obs>, frame: nat)
    requires forall o :: o in more && o.Ran? ==> o.frame != frame
    ensures RunBy(trace + more, frame) == RunBy(trace, frame)
  {
    if more == [] {
      assert trace + more == trace;
    } else {
      var n := |more| - 1;
      assert (trace + more)[..|trace + more| - 1] == trace + more[..n];
      assert more[n] in more && forall o :: o in more[..n] ==> o in more;
      RunByMore(trace, more[..n], frame);
    }
  }

  lemma RunByLater(s: Session, t: Session, from: nat, frame: nat)
    requires Later(s, t, from) && frame < from
    ensures RunBy(t.trace, frame) == RunBy(s.trace, frame)
  {
    assert t.trace == s.trace + t.trace[|s.trace|..];
    RunByMore(s.trace, t.trace[|s.trace|..], frame);
  }

  lemma ExecutorRuns(s: Session, a: Action, runs: Runs, frame: nat, inflight: set<nat>)
    requires Inv(s, inflight) && MayRun(s, a, frame) && s.depth < s.slots
    ensures RunBy(WithExecutor(s, a, runs, frame).0.trace, frame) == RunBy(s.trace, frame) + [a.id]
  {
    var inside := Enter(s, a, frame);
    EnterOk(s, a, frame, inflight);
    assert inside.trace[..|s.trace|] == s.trace;
    hide MayRun;
    hide Inv;
    if runs.Visit? {
      RunStepsOk(inside, runs.body, inflight);
      RunByLater(inside, RunSteps(inside, runs.body), inside.frames, frame);
    }
    hide RunSteps;
    hide RunBy;
  }

  lemma ActionRuns(s: Session, a: Action, runs: Runs, frame: nat, inflight: set<nat>)
    requires Inv(s, inflight) && Outermost(s, inflight) && ActionOk(s, a) && LiveEntry(s.store, a.id)
    requires frame < s.frames && Below(s.trace, frame, a.id) && s.depth < s.slots
    ensures var (s1, removed) := Consume(s, a);
            var (s2, outcome) := WithExecutor(s1, a, runs, frame);
            var t := Settle(s2, a, outcome, removed).0;
            && RunBy(t.trace, frame) == RunBy(s.trace, frame) + [a.id]
            && outcome == Handler(runs, 0) && t.slots >= s.slots
            && (outcome == Delete ==> !LiveEntry(t.store, a.id))
  {
    var (s1, removed) := Consume(s, a);
    ConsumeOk(s, a, frame, inflight);
    ConsumeKeeps(s, a);
    RunByLater(s, s1, s.frames, frame);
    var (s2, outcome) := WithExecutor(s1, a, runs, frame);
    assert outcome == Handler(runs, 0);
    WithExecutorOk(s1, a, runs, frame, inflight + LuaRefs(removed));
    ExecutorRuns(s1, a, runs, frame, inflight + LuaRefs(removed));
    SettleKeeps(s2, a, outcome, removed);
    assert Outermost(s2, inflight);
    hide Consume;
    hide WithExecutor;
    hide Settle;
    hide Inv;
    hide MayRun;
    SettleOk(s2, a, outcome, removed, inflight);
    RunByLater(s2, Settle(s2, a, outcome, removed).0, s2.frames, frame);
  }

  /** What the answer of a plan says about the definitions that the frame ran: all handlers but
      the last went well; the answer is ok exactly if the last did too and no free was refused;
      each planned definition that was there, up to the last that ran if the answer is not ok,
      ran or left the store; and the ones whose handler asked for it are deleted. */
  ghost predicate Answers(s: Session, t: Session, plan: seq<Action>, runs: Runs, ok: bool, ran: seq<nat>) {
    && (forall k :: 0 <= k < |ran| - 1 ==> Handler(runs, k) != Fail)
    && (ok <==> (ran != [] ==> Handler(runs, |ran| - 1) != Fail) && t.refused == s.refused)
    && (ran == [] ==> ok)
    && (forall a :: a in plan && LiveEntry(s.store, a.id) && (ok || a.id <= ran[|ran| - 1]) ==>
          a.id in ran || Departed(t.trace, a.id))
    && (forall id :: id in ran ==> LiveEntry(s.store, id) && exists a :: a in plan && a.id == id)
    && (forall k :: 0 <= k < |ran| && Handler(runs, k) == Delete ==> !LiveEntry(t.store, ran[k]))
  }

  lemma AnswersSkip(s: Session, t: Session, plan: seq<Action>, runs: Runs, ok: bool, ran: seq<nat>)
    requires plan != [] && !LiveEntry(s.store, plan[0].id) && Answers(s, t, plan[1..], runs, ok, ran)
    ensures Answers(s, t, plan, runs, ok, ran)
  {
    assert plan == [plan[0]] + plan[1..];
  }

  lemma AnswersStop(s: Session, t: Session, plan: seq<Action>, runs: Runs)
    requires plan != [] && LiveEntry(s.store, plan[0].id) && Ascending(plan)
    requires Handler(runs, 0) == Fail || t.refused != s.refused
    requires Handler(runs, 0) == Delete ==> !LiveEntry(t.store, plan[0].id)
    ensures Answers(s, t, plan, runs, false, [plan[0].id])
  {
    assert plan == [plan[0]] + plan[1..];
  }

  /** A definition there later was there before. */
  lemma LiveBefore(s: Session, u: Session, from: nat, id: nat)
    requires Later(s, u, from) && id < s.store.nextEntry && LiveEntry(u.store, id)
    ensures LiveEntry(s.store, id)
  {
  }

  lemma HandlerNext(runs: Runs, id: nat, ran: seq<nat>)
    ensures var all := [id] + ran;
            && (forall k :: 0 < k < |all| ==> Handler(runs, k) == Handler(Next(runs), k - 1) && all[k] == ran[k - 1])
            && all[0] == id && (ran != [] ==> all[|all| - 1] == ran[|ran| - 1])
  {
  }

  lemma AnswersGo(s: Session, u: Session, t: Session, plan: seq<Action>, runs: Runs, ok: bool, ran: seq<nat>)
    requires plan != [] && LiveEntry(s.store, plan[0].id) && u.refused == s.refused
    requires Handler(runs, 0) != Fail && (Handler(runs, 0) == Delete ==> !LiveEntry(t.store, plan[0].id))
    requires forall b :: b in plan[1..] && LiveEntry(s.store, b.id) ==>
               LiveEntry(u.store, b.id) || Departed(t.trace, b.id)
    requires forall id :: id in ran ==> LiveEntry(s.store, id)
    requires Answers(u, t, plan[1..], Next(runs), ok, ran)
    ensures Answers(s, t, plan, runs, ok, [plan[0].id] + ran)
  {
    hide LiveEntry;
    hide Departed;
    hide Handler;
    var a, all := plan[0], [plan[0].id] + ran;
    assert plan == [a] + plan[1..];
    HandlerNext(runs, a.id, ran);
    forall id | id in ran
      ensures exists b :: b in plan && b.id == id
    {
      var b :| b in plan[1..] && b.id == id;
      assert b in plan;
    }
    forall b | b in plan && LiveEntry(s.store, b.id) && (ok || b.id <= all[|all| - 1])
      ensures b.id in all || Departed(t.trace, b.id)
    {
      assert b == a || b in plan[1..];
    }
  }

  /** What the others of a plan have left of the definitions there before. */
  lemma OthersLeft(s: Session, u: Session, t: Session, others: seq<Action>, from: nat)
    requires forall b :: b in others ==> ActionOk(s, b)
    requires Keeps(s, u) && Later(s, u, from) && Keeps(u, t)
    ensures forall b :: b in others && LiveEntry(s.store, b.id) ==> LiveEntry(u.store, b.id) || Departed(t.trace, b.id)
    ensures forall b :: b in others && LiveEntry(u.store, b.id) ==> LiveEntry(s.store, b.id)
  {
    forall b | b in others && LiveEntry(s.store, b.id)
      ensures LiveEntry(u.store, b.id) || Departed(t.trace, b.id)
    {
      var e :| e in s.store.entries && e.id == b.id;
    }
    forall b | b in others && LiveEntry(u.store, b.id)
      ensures LiveEntry(s.store, b.id)
    {
      assert ActionOk(s, b);
      LiveBefore(s, u, from, b.id);
    }
  }

  lemma GoneOn(s: Session, u: Session, t: Session, plan: seq<Action>, runs: Runs, ok: bool, ran: seq<nat>, from: nat)
    requires plan != [] && PlanOk(s, plan) && LiveEntry(s.store, plan[0].id)
    requires Keeps(s, u) && Later(s, u, from) && u.refused == s.refused && Keeps(u, t) && Later(u, t, from)
    requires Handler(runs, 0) != Fail && (Handler(runs, 0) == Delete ==> !LiveEntry(u.store, plan[0].id))
    requires Answers(u, t, plan[1..], Next(runs), ok, ran)
    ensures Answers(s, t, plan, runs, ok, [plan[0].id] + ran)
  {
    var a, others := plan[0], plan[1..];
    assert forall b :: b in others ==> b in plan;
    assert forall b :: b in plan ==> ActionOk(s, b);
    assert ActionOk(s, a);
    if LiveEntry(t.store, a.id) {
      LiveBefore(u, t, from, a.id);
    }
    hide ActionOk;
    OthersLeft(s, u, t, others, from);
    hide Keeps;
    hide Later;
    hide LiveEntry;
    hide Handler;
    forall id | id in ran
      ensures LiveEntry(s.store, id)
    {
      var b :| b in others && b.id == id;
    }
    AnswersGo(s, u, t, plan, runs, ok, ran);
  }

  /** One stored action of a plan: consumed if one-shot, run, settled. */
  function Turn(s: Session, a: Action, runs: Runs, frame: nat): (Session, Outcome, bool) {
    var (s1, removed) := Consume(s, a);
    var (s2, outcome) := WithExecutor(s1, a, runs, frame);
    var (s3, cleaned) := Settle(s2, a, outcome, removed);
    (s3, outcome, cleaned)
  }

  lemma PlanStep(s: Session, plan: seq<Action>, runs: Runs, frame: nat)
    requires plan != []
    ensures ExecutePlan(s, plan, runs, frame)
         == if !LiveEntry(s.store, plan[0].id) then ExecutePlan(s, plan[1..], runs, frame)
            else
              var (u, outcome, cleaned) := Turn(s, plan[0], runs, frame);
              if outcome == Fail || !cleaned then (u, false) else ExecutePlan(u, plan[1..], Next(runs), frame)
  {
    hide Consume;
    hide WithExecutor;
    hide Settle;
    hide LiveEntry;
  }

  /** What one turn keeps and leaves to the others of the plan. */
  lemma TurnOk(s: Session, plan: seq<Action>, runs: Runs, frame: nat, inflight: set<nat>)
    requires Inv(s, inflight) && Outermost(s, inflight) && PlanOk(s, plan) && frame < s.frames && s.depth < s.slots
    requires plan != [] && Below(s.trace, frame, plan[0].id) && LiveEntry(s.store, plan[0].id)
    ensures var (u, outcome, cleaned) := Turn(s, plan[0], runs, frame);
            && Inv(u, inflight) && Outermost(u, inflight) && PlanOk(u, plan[1..]) && frame < u.frames
            && u.depth < u.slots && (plan[1..] != [] ==> Below(u.trace, frame, plan[1..][0].id))
            && RunBy(u.trace, frame) == RunBy(s.trace, frame) + [plan[0].id]
            && outcome == Handler(runs, 0) && (outcome == Delete ==> !LiveEntry(u.store, plan[0].id))
            && Keeps(s, u) && Later(s, u, frame) && (cleaned <==> u.refused == s.refused)
  {
    var a, others := plan[0], plan[1..];
    assert forall b :: b in others ==> b in plan;
    assert others != [] ==> a.id < others[0].id;
    assert ActionOk(s, a) && PlanOk(s, others);
    ActionRunsOk(s, a, runs, frame, inflight);
    ActionKeeps(s, a, runs, frame, inflight);
    ActionRuns(s, a, runs, frame, inflight);
    hide Consume;
    hide WithExecutor;
    hide Settle;
    hide Inv;
    hide Keeps;
    hide RunBy;
    hide LiveEntry;
    hide ActionOk;
    PlanStays(s, Turn(s, a, runs, frame).0, others);
  }

  lemma NothingPlanned(s: Session, runs: Runs, frame: nat)
    ensures ExecutePlan(s, [], runs, frame) == (s, true) && Answers(s, s, [], runs, true, [])
    ensures RunBy(s.trace, frame) == RunBy(s.trace, frame) + []
  {
  }

  lemma OthersOk(s: Session, plan: seq<Action>, frame: nat)
    requires plan != [] && PlanOk(s, plan) && Below(s.trace, frame, plan[0].id)
    ensures PlanOk(s, plan[1..]) && Ascending(plan)
    ensures plan[1..] != [] ==> Below(s.trace, frame, plan[1..][0].id)
  {
    assert forall b :: b in plan[1..] ==> b in plan;
    assert plan[1..] != [] ==> plan[0].id < plan[1..][0].id;
  }

  lemma NextIsLess(runs: Runs)
    ensures if runs.Visit? then Next(runs) < runs else Next(runs) == runs
  {
  }

  lemma {:induction false} PlanAnswers(s: Session, plan: seq<Action>, runs: Runs, frame: nat, inflight: set<nat>)
      returns (ran: seq<nat>)
    requires Inv(s, inflight) && Outermost(s, inflight) && PlanOk(s, plan) && frame < s.frames && s.depth < s.slots
    requires plan != [] ==> Below(s.trace, frame, plan[0].id)
    ensures var (t, ok) := ExecutePlan(s, plan, runs, frame);
            RunBy(t.trace, frame) == RunBy(s.trace, frame) + ran && Answers(s, t, plan, runs, ok, ran)
    decreases runs, |plan|
  {
    hide *;
    if plan == [] {
      NothingPlanned(s, runs, frame);
      return [];
    }
    var a, others := plan[0], plan[1..];
    PlanStep(s, plan, runs, frame);
    OthersOk(s, plan, frame);
    NextIsLess(runs);
    if !LiveEntry(s.store, a.id) {
      ran := PlanAnswers(s, others, runs, frame, inflight);
      var (t, ok) := ExecutePlan(s, others, runs, frame);
      AnswersSkip(s, t, plan, runs, ok, ran);
      return;
    }
    var (u, outcome, cleaned) := Turn(s, a, runs, frame);
    TurnOk(s, plan, runs, frame, inflight);
    if outcome == Fail || !cleaned {
      AnswersStop(s, u, plan, runs);
      return [a.id];
    }
    var more := PlanAnswers(u, others, Next(runs), frame, inflight);
    PlanKeeps(u, others, Next(runs), frame, inflight);
    ExecutePlanOk(u, others, Next(runs), frame, inflight);
    var (t, ok) := ExecutePlan(u, others, Next(runs), frame);
    GoneOn(s, u, t, plan, runs, ok, more, frame);
    return [a.id] + more;
  }

  lemma {:induction false} RunByIs(trace: seq<Obs>, frame: nat, id: nat)
    ensures id in RunBy(trace, frame) <==> exists once :: Ran(id, once, frame) in trace
  {
    if trace != [] {
      var n := |trace| - 1;
      var o := trace[n];
      RunByIs(trace[..n], frame, id);
      assert trace == trace[..n] + [o];
      assert forall once :: Ran(id, once, frame) in trace
                       <==> Ran(id, once, frame) in trace[..n] || o == Ran(id, once, frame);
      if o.Ran? && o.frame == frame && o.id == id {
        assert Ran(id, o.once, frame) in trace;
      }
    }
  }

  lemma {:induction false} NothingRunYet(trace: seq<Obs>, frame: nat)
    requires forall o :: o in trace && o.Ran? ==> o.frame < frame
    ensures RunBy(trace, frame) == []
  {
    assert [] + trace == trace && forall o :: o in trace && o.Ran? ==> o.frame != frame;
    RunByMore([], trace, frame);
  }

  lemma LiveHasNotDeparted(s: Session, inflight: set<nat>, id: nat)
    requires Inv(s, inflight) && LiveEntry(s.store, id)
    ensures !Departed(s.trace, id)
  {
    assert Removed(id) in s.trace ==> ObsOk(s, Removed(id));
    assert Consumed(id) in s.trace ==> ObsOk(s, Consumed(id));
  }

  lemma DepartedSince(before: seq<Obs>, after: seq<Obs>, id: nat)
    requires before <= after && Departed(after, id) && !Departed(before, id)
    ensures Departed(after[|before|..], id)
  {
    assert after == before + after[|before|..];
  }

  /** The frame that executes a plan has made no execution before. */
  lemma FrameAnswers(s: Session, k: nat, runs: Runs, inflight: set<nat>)
    requires Inv(s, inflight) && Outermost(s, inflight) && k < |s.plans| && s.depth < s.slots
    ensures var u := s.(frames := s.frames + 1);
            var (t, ok) := ExecutePlan(u, s.plans[k], runs, s.frames);
            && Answers(u, t, s.plans[k], runs, ok, RunBy(t.trace, s.frames))
            && Keeps(u, t) && s.trace <= t.trace
  {
    hide *;
    var plan, frame := s.plans[k], s.frames;
    var u := s.(frames := s.frames + 1);
    FrameOpens(s, k, inflight);
    NothingRunYet(u.trace, frame);
    NotBelow(u.trace, plan, frame);
    SameDepth(s, inflight);
    var ran := PlanAnswers(u, plan, runs, frame, inflight);
    PlanKeeps(u, plan, runs, frame, inflight);
    ExecutePlanOk(u, plan, runs, frame, inflight);
    var (t, ok) := ExecutePlan(u, plan, runs, frame);
    assert [] + ran == ran;
    LaterTrace(u, t, frame);
  }

  lemma NotBelow(trace: seq<Obs>, plan: seq<Action>, frame: nat)
    requires forall o :: o in trace && o.Ran? ==> o.frame < frame
    ensures plan != [] ==> Below(trace, frame, plan[0].id)
  {
  }

  lemma SameDepth(s: Session, inflight: set<nat>)
    requires Outermost(s, inflight)
    ensures Outermost(s.(frames := s.frames + 1), inflight)
  {
  }

  lemma LaterTrace(s: Session, t: Session, from: nat)
    requires Later(s, t, from)
    ensures s.trace <= t.trace
  {
  }

  lemma DepartedMeanwhile(s: Session, t: Session, plan: seq<Action>, inflight: set<nat>)
    requires Inv(s, inflight) && s.trace <= t.trace
    ensures forall a :: a in plan && LiveEntry(s.store, a.id) && Departed(t.trace, a.id) ==>
              Departed(t.trace[|s.trace|..], a.id)
  {
    forall a | a in plan && LiveEntry(s.store, a.id) && Departed(t.trace, a.id)
      ensures Departed(t.trace[|s.trace|..], a.id)
    {
      LiveHasNotDeparted(s, inflight, a.id);
      DepartedSince(s.trace, t.trace, a.id);
    }
    hide *;
  }

  /** Executing a plan in a frame that has a host, whatever its handlers do. Every planned
      definition that was there runs or leaves the store, if the answer is ok; otherwise every
      one up to the last that ran. The answer is ok exactly if no handler that ran failed and no
      free was refused; after a failed handler nothing more runs; and a definition whose handler
      asks for it is deleted. */
  lemma PlanRunsItsDefinitions(s: Session, k: nat, runs: Runs, inflight: set<nat>)
    requires Inv(s, inflight) && Outermost(s, inflight) && k < |s.plans| && s.depth < s.slots
    ensures var plan, frame := s.plans[k], s.frames;
            var (t, ok) := ExecutePlan(s.(frames := s.frames + 1), plan, runs, frame);
            && RunStep(s, Execute(k, runs)) == t && s.trace <= t.trace
            && Answers(s, t, plan, runs, ok, RunBy(t.trace, frame))
            && (s.depth > 0 ==> t.refused == s.refused)
            && (forall a :: a in plan && LiveEntry(s.store, a.id) && Departed(t.trace, a.id) ==>
                  Departed(t.trace[|s.trace|..], a.id))
  {
    hide *;
    var plan, frame := s.plans[k], s.frames;
    var u := s.(frames := s.frames + 1);
    var (t, ok) := ExecutePlan(u, plan, runs, frame);
    FrameAnswers(s, k, runs, inflight);
    DepartedMeanwhile(s, t, plan, inflight);
    SameAnswers(s, u, t, plan, runs, ok, RunBy(t.trace, frame));
    ExecuteIs(s, k, runs);
    InsideNoneRefused(u, t);
  }

  lemma ExecuteIs(s: Session, k: nat, runs: Runs)
    requires k < |s.plans|
    ensures RunStep(s, Execute(k, runs)) == ExecutePlan(s.(frames := s.frames + 1), s.plans[k], runs, s.frames).0
  {
    var t := ExecutePlan(s.(frames := s.frames + 1), s.plans[k], runs, s.frames).0;
    var same := (u: Session) => u == t;
    assert same(t);
    StepHas(s, k, runs, same);
  }

  lemma StepHas(s: Session, k: nat, runs: Runs, p: Session -> bool)
    requires k < |s.plans| && p(ExecutePlan(s.(frames := s.frames + 1), s.plans[k], runs, s.frames).0)
    ensures p(RunStep(s, Execute(k, runs)))
  {
    hide ExecutePlan;
    hide CreateAutocmd;
    hide StripAndRelease;
    hide StripAndDiscard;
    hide DeleteAugroup;
    hide Augroup;
    hide Plan;
  }

  lemma InsideNoneRefused(s: Session, t: Session)
    requires Keeps(s, t)
    ensures s.depth > 0 ==> t.refused == s.refused
  {
  }

  lemma SameAnswers(s: Session, u: Session, t: Session, plan: seq<Action>, runs: Runs, ok: bool, ran: seq<nat>)
    requires u.store == s.store && u.refused == s.refused && Answers(u, t, plan, runs, ok, ran)
    ensures Answers(s, t, plan, runs, ok, ran)
  {
  }

  // ----- handlers that make no API calls

  predicate Silent(runs: Runs) {
    runs.Quiet? || (runs.body.Done? && Silent(runs.rest))
  }

  lemma SilentExecutor(s: Session, a: Action, runs: Runs, frame: nat)
    requires Silent(runs) && s.depth < s.slots
    ensures WithExecutor(s, a, runs, frame).0.store == s.store
  {
    assert runs.Visit? ==> RunSteps(Enter(s, a, frame), runs.body) == Enter(s, a, frame);
  }

  lemma SilentTurn(s: Session, a: Action, runs: Runs, frame: nat)
    requires ActionOk(s, a) && Silent(runs) && s.depth < s.slots
    ensures var (u, outcome, cleaned) := Turn(s, a, runs, frame);
            forall e :: e in u.store.entries
              <==> e in s.store.entries && !(e.id == a.id && (e.options.once || outcome == Delete))
  {
    RetainKeeps(s.store.entries, Not(OnceWithId(a.id)));
    var (s1, removed) := Consume(s, a);
    var (s2, outcome) := WithExecutor(s1, a, runs, frame);
    SilentExecutor(s1, a, runs, frame);
    assert forall e :: e in s1.store.entries <==> e in s.store.entries && !(e.id == a.id && e.options.once);
    RetainKeeps(s2.store.entries, Not(WithId(a.id)));
    hide Consume;
    hide WithExecutor;
    SettleStore(s2, a, outcome, removed);
  }

  lemma SettleStore(s: Session, a: Action, outcome: Outcome, removed: seq<Kind>)
    ensures Settle(s, a, outcome, removed).0.store == if outcome == Delete then Drop(s.store, WithId(a.id)) else s.store
  {
    ReleaseKeeps(s, removed);
    ReleaseKeeps(Strip(s, WithId(a.id)), removed + Listed(DroppedLast(s.store, WithId(a.id))));
    hide ReleaseRemoved;
  }

  /** The planned definitions that are there, in order. */
  function LiveIds(s: Store, plan: seq<Action>): seq<nat> {
    if plan == [] then [] else (if LiveEntry(s, plan[0].id) then [plan[0].id] else []) + LiveIds(s, plan[1..])
  }

  lemma {:induction false} LiveIdsKeep(s: Store, t: Store, plan: seq<Action>)
    requires forall a :: a in plan ==> (LiveEntry(s, a.id) <==> LiveEntry(t, a.id))
    ensures LiveIds(s, plan) == LiveIds(t, plan)
  {
    if plan != [] {
      assert plan == [plan[0]] + plan[1..];
      hide LiveEntry;
      LiveIdsKeep(s, t, plan[1..]);
    }
  }

  /** The k-th execution takes its definition away: it is one-shot, or its handler asks. */
  predicate Spent(e: Entry, runs: Runs, ran: seq<nat>) {
    exists k :: 0 <= k < |ran| && ran[k] == e.id && (e.options.once || Handler(runs, k) == Delete)
  }

  ghost predicate Silently(s: Session, t: Session, plan: seq<Action>, runs: Runs, ok: bool, ran: seq<nat>) {
    && (forall e :: e in t.store.entries <==> e in s.store.entries && !Spent(e, runs, ran))
    && (ok ==> ran == LiveIds(s.store, plan))
  }

  lemma SpentNext(e: Entry, runs: Runs, id: nat, ran: seq<nat>)
    ensures Spent(e, runs, [id] + ran)
       <==> (e.id == id && (e.options.once || Handler(runs, 0) == Delete)) || Spent(e, Next(runs), ran)
  {
    var all := [id] + ran;
    assert forall k :: 0 < k < |all| ==> all[k] == ran[k - 1] && Handler(runs, k) == Handler(Next(runs), k - 1);
    assert forall k :: 0 <= k < |ran| ==> ran[k] == all[k + 1] && Handler(runs, k + 1) == Handler(Next(runs), k);
    if Spent(e, Next(runs), ran) {
      var k :| 0 <= k < |ran| && ran[k] == e.id && (e.options.once || Handler(Next(runs), k) == Delete);
      assert all[k + 1] == e.id;
    }
    assert all[0] == id;
  }

  /** The definitions planned after a turn are there exactly if they were before it. */
  lemma OthersStay(s: Session, u: Session, a: Action, others: seq<Action>, delete: bool)
    requires forall b :: b in others ==> b.id > a.id
    requires forall e :: e in u.store.entries <==> e in s.store.entries && !(e.id == a.id && (e.options.once || delete))
    ensures forall b :: b in others ==> (LiveEntry(s.store, b.id) <==> LiveEntry(u.store, b.id))
  {
  }

  lemma SilentGo(s: Session, u: Session, t: Session, plan: seq<Action>, runs: Runs, ok: bool, ran: seq<nat>)
    requires plan != [] && LiveEntry(s.store, plan[0].id) && Ascending(plan)
    requires forall e :: e in u.store.entries
               <==> e in s.store.entries && !(e.id == plan[0].id && (e.options.once || Handler(runs, 0) == Delete))
    requires Silently(u, t, plan[1..], Next(runs), ok, ran)
    ensures Silently(s, t, plan, runs, ok, [plan[0].id] + ran)
  {
    var a, others := plan[0], plan[1..];
    forall e
      ensures Spent(e, runs, [a.id] + ran)
         <==> (e.id == a.id && (e.options.once || Handler(runs, 0) == Delete)) || Spent(e, Next(runs), ran)
    {
      SpentNext(e, runs, a.id, ran);
    }
    assert forall b :: b in others ==> b.id > a.id;
    OthersStay(s, u, a, others, Handler(runs, 0) == Delete);
    hide LiveEntry;
    LiveIdsKeep(s.store, u.store, others);
    hide Spent;
  }

  lemma SilentStop(s: Session, u: Session, plan: seq<Action>, runs: Runs, a: Action)
    requires plan != [] && a == plan[0]
    requires forall e :: e in u.store.entries
               <==> e in s.store.entries && !(e.id == a.id && (e.options.once || Handler(runs, 0) == Delete))
    ensures Silently(s, u, plan, runs, false, [a.id])
  {
    forall e
      ensures Spent(e, runs, [a.id]) <==> e.id == a.id && (e.options.once || Handler(runs, 0) == Delete)
    {
      assert [a.id][0] == a.id;
    }
  }

  lemma {:induction false} SilentPlan(s: Session, plan: seq<Action>, runs: Runs, frame: nat, inflight: set<nat>)
      returns (ran: seq<nat>)
    requires Inv(s, inflight) && Outermost(s, inflight) && PlanOk(s, plan) && frame < s.frames && s.depth < s.slots
    requires (plan != [] ==> Below(s.trace, frame, plan[0].id)) && Silent(runs)
    ensures var (t, ok) := ExecutePlan(s, plan, runs, frame);
            RunBy(t.trace, frame) == RunBy(s.trace, frame) + ran && Silently(s, t, plan, runs, ok, ran)
    decreases runs, |plan|
  {
    hide *;
    if plan == [] {
      NothingPlanned(s, runs, frame);
      SilentNothing(s, runs);
      return [];
    }
    var a, others := plan[0], plan[1..];
    PlanStep(s, plan, runs, frame);
    OthersOk(s, plan, frame);
    NextIsLess(runs);
    NextIsSilent(runs);
    if !LiveEntry(s.store, a.id) {
      ran := SilentPlan(s, others, runs, frame, inflight);
      var (t, ok) := ExecutePlan(s, others, runs, frame);
      SilentSkip(s, t, plan, runs, ok, ran);
      return;
    }
    var (u, outcome, cleaned) := Turn(s, a, runs, frame);
    TurnOk(s, plan, runs, frame, inflight);
    PlannedOk(s, plan);
    SilentTurn(s, a, runs, frame);
    if outcome == Fail || !cleaned {
      SilentStop(s, u, plan, runs, a);
      return [a.id];
    }
    var more := SilentPlan(u, others, Next(runs), frame, inflight);
    var (t, ok) := ExecutePlan(u, others, Next(runs), frame);
    SilentGo(s, u, t, plan, runs, ok, more);
    return [a.id] + more;
  }

  lemma PlannedOk(s: Session, plan: seq<Action>)
    requires plan != [] && PlanOk(s, plan)
    ensures ActionOk(s, plan[0])
  {
  }

  lemma NextIsSilent(runs: Runs)
    requires Silent(runs)
    ensures Silent(Next(runs))
  {
  }

  lemma SilentNothing(s: Session, runs: Runs)
    ensures Silently(s, s, [], runs, true, [])
  {
  }

  lemma SilentSkip(s: Session, t: Session, plan: seq<Action>, runs: Runs, ok: bool, ran: seq<nat>)
    requires plan != [] && !LiveEntry(s.store, plan[0].id) && Silently(s, t, plan[1..], runs, ok, ran)
    ensures Silently(s, t, plan, runs, ok, ran)
  {
  }

  /** With handlers that make no API calls: the frame runs exactly the planned definitions that
      are there, in order, if the answer is ok; and of all definitions exactly those leave the
      store that ran and are one-shot or were asked to be deleted. */
  lemma SilentPlanExact(s: Session, k: nat, runs: Runs, inflight: set<nat>)
    requires Inv(s, inflight) && Outermost(s, inflight) && k < |s.plans| && s.depth < s.slots && Silent(runs)
    ensures var plan, frame := s.plans[k], s.frames;
            var (t, ok) := ExecutePlan(s.(frames := s.frames + 1), plan, runs, frame);
            var ran := RunBy(t.trace, frame);
            && RunStep(s, Execute(k, runs)) == t && (ok ==> ran == LiveIds(s.store, plan))
            && forall e :: e in t.store.entries <==> e in s.store.entries && !Spent(e, runs, ran)
  {
    hide *;
    ExecuteIs(s, k, runs);
    var plan, frame := s.plans[k], s.frames;
    var u := s.(frames := s.frames + 1);
    FrameOpens(s, k, inflight);
    NothingRunYet(u.trace, frame);
    NotBelow(u.trace, plan, frame);
    SameDepth(s, inflight);
    var ran := SilentPlan(u, plan, runs, frame, inflight);
    assert [] + ran == ran;
    SilentlyMeans(s, u, ExecutePlan(u, plan, runs, frame).0, plan, runs, ExecutePlan(u, plan, runs, frame).1, ran);
  }

  lemma SilentlyMeans(s: Session, u: Session, t: Session, plan: seq<Action>, runs: Runs, ok: bool, ran: seq<nat>)
    requires u.store == s.store && Silently(u, t, plan, runs, ok, ran)
    ensures ok ==> ran == LiveIds(s.store, plan)
    ensures forall e :: e in t.store.entries <==> e in s.store.entries && !Spent(e, runs, ran)
  {
  }

  // ----- without a host

  /** Without a host nothing runs and the answer is ok; the one-shot definitions of the plan are
      gone all the same. */
  lemma {:induction false} NoHostRunsNothing(s: Session, plan: seq<Action>, runs: Runs, frame: nat)
    requires s.slots == 0
    ensures var (t, ok) := ExecutePlan(s, plan, runs, frame);
            && ok && t.slots == 0 && (forall o :: o in t.trace && o.Ran? ==> o in s.trace)
            && forall e :: e in t.store.entries
                 <==> e in s.store.entries && !(e.options.once && exists a :: a in plan && a.once && a.id == e.id)
    decreases |plan|
  {
    if plan != [] {
      PlanStep(s, plan, runs, frame);
      var a, others := plan[0], plan[1..];
      assert plan == [a] + others;
      if !LiveEntry(s.store, a.id) {
        NoHostRunsNothing(s, others, runs, frame);
      } else {
        var u := Turn(s, a, runs, frame).0;
        NoHostTurn(s, a, runs, frame);
        NoHostRunsNothing(u, others, Next(runs), frame);
      }
      hide ExecutePlan;
      hide Turn;
    }
  }

  lemma NoHostTurn(s: Session, a: Action, runs: Runs, frame: nat)
    requires s.slots == 0
    ensures var (u, outcome, cleaned) := Turn(s, a, runs, frame);
            && cleaned && outcome == Keep && u.slots == 0 && (forall o :: o in u.trace && o.Ran? ==> o in s.trace)
            && forall e :: e in u.store.entries <==> e in s.store.entries && !(e.options.once && a.once && a.id == e.id)
  {
    RetainKeeps(s.store.entries, Not(OnceWithId(a.id)));
    var (s1, removed) := Consume(s, a);
    SettleKeeps(s1, a, Keep, removed);
    hide Settle;
  }

  /** Hosts once installed serve two levels of frames; from the third on one is forked. */
  lemma InstalledHosts(s: Session, depth: nat, forks: bool)
    requires depth <= 3
    ensures depth < Grow(InstallHosts(s).(depth := depth), forks).slots <==> depth < 2 || (depth == 2 && forks)
  {
  }
}
