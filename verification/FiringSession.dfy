/** The session object through which host code re-enters: each method updates the fields in
    place, statement by statement, and is proved against its function in `FiringModel`. */
module FiringSession {
  import opened AutocmdPatterns
  import opened AutocmdStore
  import opened EditorAutocmds
  import opened FiringModel

  class ApiSession {
    const autocmds: Autocmds
    var pool: nat
    var autocmdDepth: nat
    var pending: seq<nat>
    // the host: which frees it refuses, the plans it has taken, the references it gave out
    var refuses: set<nat>
    var plans: seq<seq<Action>>
    var owned: set<nat>
    // what only the claims about a run mention
    ghost var borrowed: set<nat>
    ghost var discarded: set<nat>
    ghost var unregistered: set<nat>
    ghost var refused: seq<nat>
    ghost var trace: seq<Obs>
    ghost var frames: nat
    ghost var fault: bool

    ghost function Value(): Session
      reads this, autocmds
    {
      Session(autocmds.Model(), pool, borrowed, autocmdDepth, pending, refuses, plans, owned, discarded, unregistered,
              refused, trace, frames, fault)
    }

    constructor (refuses: set<nat>)
      ensures Value() == NewSession(refuses) && fresh(autocmds)
    {
      autocmds := new Autocmds();
      pool, autocmdDepth, pending := 0, 0, [];
      this.refuses, plans, owned := refuses, [], {};
      borrowed, discarded, unregistered, refused, trace, frames, fault := {}, {}, {}, [], [], 0, false;
    }

    method SetAutocmdExecutor()
      modifies this
      ensures Value() == InstallHosts(old(Value()))
    {
      pool := 2;
      autocmdDepth := 0;
      borrowed := {};
    }

    // ----- releases

    method ReleaseAutocmdCallback(reference: nat) returns (ok: bool)
      modifies this
      ensures (Value(), ok) == ReleaseOne(old(Value()), reference)
    {
      if autocmdDepth > 0 {
        if reference !in pending {
          pending := pending + [reference];
        }
        return true;
      }
      if pool == 0 {
        if reference !in pending {
          pending := pending + [reference];
        }
        return true;
      }
      fault := fault || 0 in borrowed || reference !in owned || UsesLuaCallback(autocmds.Model(), reference);
      if reference in refuses {
        discarded := discarded + {reference};
        refused := refused + [reference];
        return false;
      }
      owned := owned - {reference};
      return true;
    }

    static lemma CollectStep(references: seq<nat>, kinds: seq<Kind>, i: nat)
      requires i < |kinds|
      ensures Collect(references, kinds[i..])
           == Collect(
                if kinds[i].LuaCallback? then Enqueue(references, kinds[i].reference) else references, kinds[i + 1..])
    {
      assert kinds[i..][1..] == kinds[i + 1..];
    }

    static lemma ReleaseStep(references: seq<nat>, i: nat)
      requires i < |references|
      ensures references[i..][0] == references[i] && references[i..][1..] == references[i + 1..]
    {
    }

    method ReleaseRemoved(removals: seq<Kind>) returns (ok: bool)
      modifies this
      ensures (Value(), ok) == FiringModel.ReleaseRemoved(old(Value()), removals)
    {
      var references := pending;
      pending := [];
      ghost var start := Value();
      assert removals[0..] == removals;
      for i := 0 to |removals|
        invariant Value() == start
        invariant Collect(references, removals[i..]) == Collect(old(pending), removals)
      {
        CollectStep(references, removals, i);
        if removals[i].LuaCallback? && removals[i].reference !in references {
          references := references + [removals[i].reference];
        }
      }
      assert removals[|removals|..] == [];
      assert references[0..] == references;
      hide Collect;
      hide ReleaseOne;
      for i := 0 to |references|
        invariant ReleaseEach(Value(), references[i..]) == ReleaseEach(start, references)
      {
        ReleaseStep(references, i);
        var used := exists k :: 0 <= k < |autocmds.entries| && autocmds.entries[k].kind == LuaCallback(references[i]);
        assert used == UsesLuaCallback(autocmds.Model(), references[i]);
        if !used {
          ok := ReleaseAutocmdCallback(references[i]);
          if !ok {
            discarded := discarded + Elements(references[i + 1..]);
            return;
          }
        }
      }
      assert references[|references|..] == [];
      ok := true;
    }

    // ----- frames

    /** The host's handler: any finite run of API calls. */
    method ExecuteWithSession(runs: Runs) returns (outcome: Outcome)
      modifies this, autocmds
      ensures runs.Quiet? ==> Value() == old(Value()) && outcome == Keep
      ensures runs.Visit? ==> Value() == FiringModel.RunSteps(old(Value()), runs.body) && outcome == runs.outcome
      decreases runs, 0
    {
      outcome := Keep;
      if runs.Visit? {
        RunSteps(runs.body);
        outcome := runs.outcome;
      }
    }

    method BeginFrame(action: Action, ghost frame: nat)
      modifies this
      ensures Value() == Enter(old(Value()), action, frame)
    {
      fault := fault || autocmdDepth in borrowed || (action.kind.LuaCallback? && action.kind.reference !in owned);
      borrowed := borrowed + {autocmdDepth};
      trace := trace + [Ran(action.id, action.once, frame)];
      autocmdDepth := autocmdDepth + 1;
    }

    method EndFrame()
      modifies this
      ensures Value() == Leave(old(Value()))
    {
      if autocmdDepth == 0 {
        fault := true;
      } else {
        autocmdDepth := autocmdDepth - 1;
        borrowed := borrowed - {autocmdDepth};
      }
    }

    /** Runs one action on the pool's host for the current depth; the host re-enters. */
    method WithAutocmdExecutor(action: Action, runs: Runs, ghost frame: nat) returns (outcome: Outcome)
      modifies this, autocmds
      ensures (Value(), outcome) == WithExecutor(old(Value()), action, runs, frame)
      decreases runs, 1
    {
      if 0 < pool <= autocmdDepth && runs.Visit? && runs.forks {
        pool := pool + 1;
      }
      assert Value() == Grow(old(Value()), runs.Visit? && runs.forks);
      hide Grow;
      if autocmdDepth >= pool {
        return Keep;
      }
      hide Enter;
      hide Leave;
      hide FiringModel.RunSteps;
      BeginFrame(action, frame);
      outcome := ExecuteWithSession(runs);
      EndFrame();
    }

    method ExecuteFiringPlan(plan: seq<Action>, runs: Runs, ghost frame: nat) returns (ok: bool)
      modifies this, autocmds
      ensures (Value(), ok) == ExecutePlan(old(Value()), plan, runs, frame)
      decreases runs, 2
    {
      var left := runs;
      assert plan[0..] == plan;
      for i := 0 to |plan|
        invariant left == runs || left < runs
        invariant ExecutePlan(Value(), plan[i..], left, frame) == ExecutePlan(old(Value()), plan, runs, frame)
      {
        assert plan[i..][0] == plan[i] && plan[i..][1..] == plan[i + 1..];
        var live := exists k :: 0 <= k < |autocmds.entries| && autocmds.entries[k].id == plan[i].id;
        assert live == LiveEntry(autocmds.Model(), plan[i].id);
        if live {
          ghost var s := Value();
          var removed := [];
          if plan[i].once {
            var consumed := autocmds.ConsumeOnce(plan[i].id);
            removed := Listed(consumed);
            trace := trace + [Consumed(plan[i].id)];
          }
          assert (Value(), removed) == Consume(s, plan[i]);
          ghost var s1 := Value();
          var outcome := WithAutocmdExecutor(plan[i], left, frame);
          ghost var s2 := Value();
          assert (s2, outcome) == WithExecutor(s1, plan[i], left, frame);
          hide WithExecutor;
          hide Consume;
          var cleaned := SettleAction(plan[i], outcome, removed);
          if outcome == Fail || !cleaned {
            return false;
          }
          left := Next(left);
        }
      }
      assert plan[|plan|..] == [];
      ok := true;
    }

    /** After the host returns: a definition that asked to be deleted goes, and what was
        removed is released. */
    method SettleAction(action: Action, outcome: Outcome, removed: seq<Kind>) returns (cleaned: bool)
      modifies this, autocmds
      ensures (Value(), cleaned) == Settle(old(Value()), action, outcome, removed)
    {
      var gone := removed;
      if outcome == Delete {
        ghost var entries := Retain(autocmds.entries, WithId(action.id));
        var deleted := autocmds.DeleteEntry(action.id);
        trace := trace + RemovedIds(entries);
        gone := gone + Listed(deleted);
        assert Value() == Strip(old(Value()), WithId(action.id));
      }
      cleaned := ReleaseRemoved(gone);
    }

    // ----- API calls of host code

    method CreateAutocmd(events: seq<Event>, patterns: string, payload: Payload, options: Options)
      modifies this, autocmds
      ensures Value() == FiringModel.CreateAutocmd(old(Value()), events, patterns, payload, options)
    {
      var kind := match payload
        case Command(source) => ExString(source)
        case Function(name) => VimscriptFunction(name)
        case Callback(hint) => LuaCallback(FreshId(owned, hint));
      if kind.LuaCallback? {
        owned := owned + {kind.reference};
      }
      assert (Value(), kind) == Acquire(old(Value()), payload);
      var r := autocmds.RegisterApi(events, patterns, kind, options);
      if r.Err? {
        unregistered := unregistered + LuaRefs([kind]);
      }
    }

    method DelAutocmd(apiId: nat)
      modifies this, autocmds
      ensures Value() == RunStep(old(Value()), Step.DelAutocmd(apiId))
    {
      if apiId == 0 {
        return;
      }
      ghost var gone := Retain(autocmds.entries, WithApiId(apiId));
      var removed := autocmds.DeleteApiId(apiId);
      if removed == [] {
        NothingDropped(old(autocmds.Model()), WithApiId(apiId));
        return;
      }
      trace := trace + RemovedIds(gone);
      assert Value() == Strip(old(Value()), WithApiId(apiId));
      var cleaned := ReleaseRemoved(removed);
    }

    static lemma NothingDropped(s: Store, doomed: Entry -> bool)
      requires Dropped(s, doomed) == []
      ensures Drop(s, doomed) == s
    {
      RetainKeeps(s.entries, doomed);
      assert Retain(s.entries, doomed) == [];
      RetainAll(s.entries, Not(doomed));
    }

    method DelAugroup(group: GroupId)
      modifies this, autocmds
      ensures Value() == DeleteAugroup(old(Value()), group)
    {
      if group in autocmds.groups && autocmds.groups[group].Live? {
        ghost var gone := Retain(autocmds.entries, InGroup(group));
        var removed := autocmds.DeleteGroup(group);
        trace := trace + RemovedIds(gone);
        assert Value() == Replace(old(Value()), AutocmdStore.DeleteGroup(old(autocmds.Model()), group).value, gone);
        var cleaned := ReleaseRemoved(removed.value);
      }
    }

    method ClearAutocmds(filter: Filter)
      modifies this, autocmds
      ensures Value() == RunStep(old(Value()), Step.ClearAutocmds(filter))
    {
      if filter.group.Some? && LiveGroup(autocmds.Model(), filter.group.value) {
        ghost var gone := Retain(autocmds.entries, ByFilter(autocmds.Model(), filter));
        var removed := autocmds.Clear(filter);
        trace := trace + RemovedIds(gone);
        assert Value() == Strip(old(Value()), ByFilter(old(autocmds.Model()), filter));
        var cleaned := ReleaseRemoved(removed);
      }
    }

    method CreateAugroup(name: string, clear: bool)
      modifies this, autocmds
      ensures Value() == Augroup(old(Value()), name, clear)
    {
      ghost var before := autocmds.Model();
      var r := autocmds.CreateGroup(name, clear);
      if r.Ok? && clear && name in before.names {
        ghost var doomed := InGroup(before.names[name]);
        trace := trace + RemovedIds(Retain(before.entries, doomed));
        discarded := discarded + LuaRefs(Dropped(before, doomed));
      }
    }

    method WipeBuffer(buffer: Buffer)
      modifies this, autocmds
      ensures Value() == StripAndDiscard(old(Value()), LocalTo(buffer))
    {
      ghost var gone := Retain(autocmds.entries, LocalTo(buffer));
      var removed := autocmds.RemoveBuffer(buffer);
      trace := trace + RemovedIds(gone);
      discarded := discarded + LuaRefs(removed);
    }

    method RunOne(step: Step)
      modifies this, autocmds
      ensures Value() == RunStep(old(Value()), step)
      decreases step, 0
    {
      match step
      case Create(events, patterns, payload, options) => CreateAutocmd(events, patterns, payload, options);
      case CreateLegacy(events, patterns, command, options) =>
        var r := autocmds.RegisterLegacy(events, patterns, ExString(command), options);
      case DelAutocmd(apiId) => DelAutocmd(apiId);
      case DelGroup(group) => DelAugroup(group);
      case DelGroupNamed(name) =>
        if name in autocmds.groupNames {
          DelAugroup(autocmds.groupNames[name]);
        }
      case ClearAutocmds(filter) => ClearAutocmds(filter);
      case CreateAugroup(name, clear) => CreateAugroup(name, clear);
      case DelGroupLegacy(group) =>
        var r := autocmds.DeleteGroupLegacy(group);
      case WipeBuffer(buffer) => WipeBuffer(buffer);
      case Snapshot(event, within, context) => plans := plans + [Plan(autocmds.Model(), event, within, context)];
      case Execute(k, runs) =>
        if k < |plans| {
          ghost var frame := frames;
          frames := frames + 1;
          var ok := ExecuteFiringPlan(plans[k], runs, frame);
        }
    }

    method RunSteps(steps: Steps)
      modifies this, autocmds
      ensures Value() == FiringModel.RunSteps(old(Value()), steps)
      decreases steps, 0
    {
      match steps
      case Done =>
      case Then(step, rest) =>
        RunOne(step);
        RunSteps(rest);
    }
  }
}
