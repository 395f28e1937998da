/** What holds of every history of installs and nested runs, from a new session on. */
module FiringTheorems {
  import opened AutocmdStore
  import opened FiringModel
  import opened FiringSafety

  // ----- whole histories

  /** At depth zero the embedder installs hosts or makes API calls. */
  datatype Turn = Install | Calls(steps: Steps)

  function TakeTurn(s: Session, turn: Turn): Session {
    match turn
    case Install => InstallHosts(s)
    case Calls(steps) => RunSteps(s, steps)
  }

  function TakeTurns(s: Session, turns: seq<Turn>): Session
    decreases |turns|
  {
    if turns == [] then s else TakeTurns(TakeTurn(s, turns[0]), turns[1..])
  }

  lemma InstallOk(s: Session)
    requires Inv(s, {}) && s.depth == 0
    ensures Inv(InstallHosts(s), {})
  {
    HistoryStays(s, InstallHosts(s));
  }

  lemma TurnOk(s: Session, turn: Turn)
    requires Inv(s, {}) && s.depth == 0
    ensures var t := TakeTurn(s, turn);
            Inv(t, {}) && t.depth == 0 && StaysDrained(s, t) && (s.slots > 0 ==> t.slots > 0)
  {
    match turn
    case Install => InstallOk(s);
    case Calls(steps) => RunStepsOk(s, steps, {});
  }

  lemma {:induction false} TurnsOk(s: Session, turns: seq<Turn>)
    requires Inv(s, {}) && s.depth == 0
    ensures var t := TakeTurns(s, turns);
            Inv(t, {}) && t.depth == 0 && StaysDrained(s, t) && (s.slots > 0 ==> t.slots > 0)
    decreases |turns|
  {
    hide Inv;
    if turns != [] {
      TurnOk(s, turns[0]);
      TurnsOk(TakeTurn(s, turns[0]), turns[1..]);
    }
  }

  lemma NewSessionOk(refuses: set<nat>)
    ensures Inv(NewSession(refuses), {})
  {
    NewValid();
  }

  /** No history frees a reference early, twice or while a definition holds it, borrows a
      borrowed slot, or calls a freed callback; and back at depth zero no slot is borrowed. */
  lemma EveryHistoryIsSafe(refuses: set<nat>, turns: seq<Turn>)
    ensures var s := TakeTurns(NewSession(refuses), turns);
            && !s.fault && s.depth == 0 && s.borrowed == {} && Valid(s.store)
            && forall r :: UsesLuaCallback(s.store, r) ==> r in s.owned
  {
    NewSessionOk(refuses);
    TurnsOk(NewSession(refuses), turns);
  }

  /** Any nested run, whatever its plans fail on, leaves the depth and the borrowed slots as
      they were, and a frame deeper in has its own slot: one push always suffices. */
  lemma RunsRestoreTheDepth(s: Session, steps: Steps, inflight: set<nat>)
    requires Inv(s, inflight) && Outermost(s, inflight)
    ensures var t := RunSteps(s, steps);
            && t.depth == s.depth && t.borrowed == s.borrowed
            && t.depth !in t.borrowed && (t.slots > 0 ==> t.depth < Grow(t, true).slots)
  {
    RunStepsOk(s, steps, inflight);
    var t := RunSteps(s, steps);
    hide RunSteps;
    forall i
      ensures i in t.borrowed <==> i in s.borrowed
    {
    }
  }

  // ----- what a trace can be

  lemma {:induction false} AllowedAt(trace: seq<Obs>, j: nat)
    requires TraceOk(trace) && j < |trace|
    ensures Allowed(trace[..j], trace[j])
  {
    var n := |trace| - 1;
    if j < n {
      AllowedAt(trace[..n], j);
      assert trace[..n][..j] == trace[..j];
    }
  }

  /** A definition never runs after its removal; a one-shot one runs at most once, right
      after it left the store; and one plan runs its definitions in registration order. */
  ghost predicate InOrder(trace: seq<Obs>) {
    forall i, j :: 0 <= i < j < |trace| && trace[j].Ran? ==>
      && trace[i] != Removed(trace[j].id)
      && (trace[i].Ran? && trace[i].id == trace[j].id ==> !trace[i].once && !trace[j].once)
      && (trace[i].Ran? && trace[i].frame == trace[j].frame ==> trace[i].id < trace[j].id)
  }

  ghost predicate OneShotsLeaveFirst(trace: seq<Obs>) {
    forall j :: 0 <= j < |trace| && trace[j].Ran? && trace[j].once ==> j > 0 && trace[j - 1] == Consumed(trace[j].id)
  }

  lemma TraceInOrder(trace: seq<Obs>)
    requires TraceOk(trace)
    ensures InOrder(trace) && OneShotsLeaveFirst(trace)
  {
    forall j | 0 <= j < |trace|
      ensures Allowed(trace[..j], trace[j])
    {
      AllowedAt(trace, j);
    }
    forall i, j | 0 <= i < j < |trace|
      ensures trace[i] in trace[..j]
    {
      assert trace[..j][i] == trace[i];
    }
  }

  lemma EveryTraceIsInOrder(refuses: set<nat>, turns: seq<Turn>)
    ensures var trace := TakeTurns(NewSession(refuses), turns).trace; InOrder(trace) && OneShotsLeaveFirst(trace)
  {
    NewSessionOk(refuses);
    TurnsOk(NewSession(refuses), turns);
    TraceInOrder(TakeTurns(NewSession(refuses), turns).trace);
  }

  // ----- a frame runs only what was planned

  predicate OnlyRuns(trace: seq<Obs>, frame: nat, ids: set<nat>) {
    forall o :: o in trace && o.Ran? && o.frame == frame ==> o.id in ids
  }

  function Ids(plan: seq<Action>): set<nat> {
    set a | a in plan :: a.id
  }

  lemma OnlyRunsStays(s: Session, t: Session, from: nat, frame: nat, ids: set<nat>)
    requires OnlyRuns(s.trace, frame, ids) && Later(s, t, from) && frame < from
    ensures OnlyRuns(t.trace, frame, ids)
  {
    assert t.trace == s.trace + t.trace[|s.trace|..];
  }

  lemma WithExecutorRuns(s: Session, a: Action, runs: Runs, frame: nat, inflight: set<nat>, ids: set<nat>)
    requires Inv(s, inflight) && MayRun(s, a, frame) && OnlyRuns(s.trace, frame, ids) && a.id in ids
    ensures OnlyRuns(WithExecutor(s, a, runs, frame).0.trace, frame, ids)
  {
    hide Inv;
    var forks := runs.Visit? && runs.forks;
    var s' := Grow(s, forks);
    GrowSlotsOk(s, forks, inflight);
    if s'.depth < s'.slots && runs.Visit? {
      var inside := Enter(s', a, frame);
      EnterOk(s', a, frame, inflight);
      assert OnlyRuns(inside.trace, frame, ids);
      hide MayRun;
      assert Outermost(inside, inflight);
      RunStepsOk(inside, runs.body, inflight);
      hide RunSteps;
      OnlyRunsStays(inside, RunSteps(inside, runs.body), s.frames, frame, ids);
    }
  }

  lemma ActionRunsItself(s: Session, a: Action, runs: Runs, frame: nat, inflight: set<nat>, ids: set<nat>)
    requires Inv(s, inflight) && Outermost(s, inflight) && ActionOk(s, a) && LiveEntry(s.store, a.id)
    requires frame < s.frames && Below(s.trace, frame, a.id) && OnlyRuns(s.trace, frame, ids) && a.id in ids
    ensures var (s1, removed) := Consume(s, a);
            var (s2, outcome) := WithExecutor(s1, a, runs, frame);
            OnlyRuns(Settle(s2, a, outcome, removed).0.trace, frame, ids)
  {
    hide Inv;
    var (s1, removed) := Consume(s, a);
    ConsumeOk(s, a, frame, inflight);
    hide Consume;
    OnlyRunsStays(s, s1, s.frames, frame, ids);
    var (s2, outcome) := WithExecutor(s1, a, runs, frame);
    WithExecutorOk(s1, a, runs, frame, inflight + LuaRefs(removed));
    WithExecutorRuns(s1, a, runs, frame, inflight + LuaRefs(removed), ids);
    hide WithExecutor;
    hide MayRun;
    assert Outermost(s2, inflight);
    SettleOk(s2, a, outcome, removed, inflight);
    hide Settle;
    OnlyRunsStays(s2, Settle(s2, a, outcome, removed).0, s2.frames, frame, ids);
  }

  /** Of the executions a plan's frame makes, each is of a planned definition; with
      `InOrder`, they form a subsequence of the plan. */
  lemma {:induction false} PlanRunsOnly(s: Session, plan: seq<Action>, runs: Runs, frame: nat, inflight: set<nat>,
                                        ids: set<nat>)
    requires Inv(s, inflight) && Outermost(s, inflight) && PlanOk(s, plan) && frame < s.frames
    requires plan != [] ==> Below(s.trace, frame, plan[0].id)
    requires OnlyRuns(s.trace, frame, ids) && forall a :: a in plan ==> a.id in ids
    ensures OnlyRuns(ExecutePlan(s, plan, runs, frame).0.trace, frame, ids)
    decreases runs, |plan|
  {
    if plan != [] {
      hide Inv;
      hide OnlyRuns;
      var a, others := plan[0], plan[1..];
      assert forall b :: b in others ==> b in plan;
      assert others != [] ==> a.id < others[0].id;
      if !LiveEntry(s.store, a.id) {
        PlanRunsOnly(s, others, runs, frame, inflight, ids);
      } else {
        var (s1, removed) := Consume(s, a);
        var (s2, outcome) := WithExecutor(s1, a, runs, frame);
        var (s3, cleaned) := Settle(s2, a, outcome, removed);
        ActionRunsOk(s, a, runs, frame, inflight);
        ActionRunsItself(s, a, runs, frame, inflight, ids);
        hide Consume;
        hide WithExecutor;
        hide Settle;
        if outcome != Fail && cleaned {
          PlanStays(s, s3, others);
          PlanRunsOnly(s3, others, Next(runs), frame, inflight, ids);
        }
      }
    }
  }

  /** Executing a plan opens a new frame, and that frame runs planned definitions only; with
      `InOrder`, its executions are a subsequence of the plan. */
  lemma FrameRunsItsPlan(s: Session, k: nat, runs: Runs, inflight: set<nat>)
    requires Inv(s, inflight) && Outermost(s, inflight) && k < |s.plans|
    ensures OnlyRuns(RunStep(s, Execute(k, runs)).trace, s.frames, Ids(s.plans[k]))
  {
    hide Inv;
    var u := s.(frames := s.frames + 1);
    FrameOpens(s, k, inflight);
    PlanRunsOnly(u, s.plans[k], runs, s.frames, inflight, Ids(s.plans[k]));
  }
}
