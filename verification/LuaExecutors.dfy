/** The Lua and Ex-command executor pools in place: frames borrow one slot each, and a Lua
    frame drains the queue of releases on its way out. */
module LuaExecutors {
  import opened Wrappers
  import opened LuaModel
  import Providers

  class Executors {
    var luaPool: nat
    var luaDepth: nat
    var pendingReleases: seq<nat>
    var commandPool: nat
    var commandDepth: nat
    const namespaces: set<nat>
    var providers: map<nat, Providers.Def>
    // the references whose release the Lua host answers with an error
    const refuses: set<nat>
    ghost var luaBorrowed: set<nat>
    ghost var commandBorrowed: set<nat>
    // every release call made to a host, in order
    ghost var freed: seq<nat>
    // a borrow of a borrowed slot
    ghost var fault: bool

    ghost function Value(): World
      reads this
    {
      World(Hosts(luaPool, luaDepth, commandPool, commandDepth, namespaces, providers), pendingReleases, freed, refuses)
    }

    /** No slot was borrowed twice, and the borrowed slots of each pool are those below its
        depth. */
    ghost predicate Valid()
      reads this
    {
      && !fault
      && luaDepth <= luaPool && (forall i: nat :: i in luaBorrowed <==> i < luaDepth)
      && commandDepth <= commandPool && (forall i: nat :: i in commandBorrowed <==> i < commandDepth)
    }

    constructor (refuses: set<nat>, namespaces: set<nat>)
      ensures Valid() && Value() == World(Hosts(0, 0, 0, 0, namespaces, map[]), [], [], refuses)
    {
      luaPool, luaDepth, commandPool, commandDepth := 0, 0, 0, 0;
      pendingReleases, providers := [], map[];
      this.refuses, this.namespaces := refuses, namespaces;
      luaBorrowed, commandBorrowed, freed, fault := {}, {}, [], false;
    }

    /** The new hosts are borrowed by nobody, whatever frames are live on the old ones. */
    method SetLuaExecutor()
      requires Valid()
      modifies this`luaPool, this`luaDepth, this`luaBorrowed
      ensures Valid() && Value() == old(Value()).(hosts := old(Value()).hosts.(luaPool := 2, luaDepth := 0))
    {
      luaPool, luaDepth, luaBorrowed := 2, 0, {};
    }

    method SetCommandExecutor()
      requires Valid()
      modifies this`commandPool, this`commandDepth, this`commandBorrowed
      ensures Valid() && Value() == old(Value()).(hosts := old(Value()).hosts.(commandPool := 2, commandDepth := 0))
    {
      commandPool, commandDepth, commandBorrowed := 2, 0, {};
    }

    // ----- releases

    /** The host of a slot is asked to free a reference. */
    method FreeCallback(slot: nat, reference: nat) returns (ok: bool)
      modifies this`freed, this`fault
      ensures freed == old(freed) + [reference] && ok == (reference !in refuses)
      ensures fault == (old(fault) || slot in luaBorrowed)
    {
      fault := fault || slot in luaBorrowed;
      freed := freed + [reference];
      ok := reference !in refuses;
    }

    method ReleaseLuaCallback(reference: nat)
      requires Valid()
      modifies this`freed, this`fault, this`pendingReleases
      ensures Valid() && Value() == RunOne(old(Value()), Release(reference))
    {
      if luaDepth > 0 || luaPool == 0 {
        pendingReleases := pendingReleases + [reference];
      } else {
        var ok := FreeCallback(0, reference);
      }
    }

    method ReleaseEach(references: seq<nat>)
      requires Valid()
      modifies this`freed, this`fault, this`pendingReleases
      ensures Valid() && Value() == ReleaseAll(old(Value()), references)
    {
      NothingReleased(Value());
      for i := 0 to |references|
        invariant Valid() && Value() == ReleaseAll(old(Value()), references[..i])
      {
        ReleaseLuaCallback(references[i]);
        OneMoreReleased(old(Value()), references, i);
      }
      assert references[..|references|] == references;
    }

    /** Installs or clears a provider; see `Providers.CallConserves` for what that conserves. */
    method SetDecorationProvider(namespace: nat, opts: Providers.Opts) returns (r: Result<(), Providers.ParseError>)
      requires Valid()
      modifies this`providers, this`freed, this`fault, this`pendingReleases
      ensures Valid() && Value() == SetProvider(old(Value()), namespace, opts)
      ensures r == Change(old(Value()).hosts, namespace, opts).outcome
    {
      hide ReleaseAll;
      hide Providers.Parse;
      hide Providers.Ids;
      hide Providers.Incoming;
      hide Providers.References;
      if namespace !in namespaces {
        SameProvider(Value().hosts, namespace);
        ReleaseEach(Providers.Incoming(opts));
        return Err(Providers.UnknownNamespace);
      }
      var incoming := Providers.ParseProviderCallbacks(opts);
      if incoming.Err? {
        SameProvider(Value().hosts, namespace);
        ReleaseEach(Providers.Incoming(opts));
        return Err(incoming.error);
      }
      var previous := if namespace in providers then Some(providers[namespace]) else None;
      if incoming.value == [] {
        if previous.Some? {
          providers := providers[namespace := Providers.NO_CALLBACKS];
        }
      } else {
        var def := Providers.CallbackIds(incoming.value);
        providers := providers[namespace := def];
      }
      ReleaseEach(if previous.Some? then Providers.References(previous.value) else []);
      return Ok(());
    }

    // ----- frames

    /** The depth goes up and the slot at the old depth is borrowed, after the pool has
        grown by a forked host if it had none for that depth. */
    method EnterLua(forks: bool) returns (entered: bool)
      requires Valid()
      modifies this`luaPool, this`luaDepth, this`luaBorrowed, this`fault
      ensures Valid()
      ensures var h := GrowLua(old(Value()).hosts, forks);
              && (entered <==> h.luaDepth < h.luaPool)
              && Value() == old(Value()).(hosts := if entered then h.(luaDepth := h.luaDepth + 1) else h)
    {
      var slot := luaDepth;
      if luaDepth >= luaPool && luaPool > 0 && forks {
        luaPool := luaPool + 1;
      }
      luaDepth := luaDepth + 1;
      if slot >= luaPool {
        luaDepth := luaDepth - 1;
        return false;
      }
      fault := fault || slot in luaBorrowed;
      luaBorrowed := luaBorrowed + {slot};
      return true;
    }

    /** The slot is given back, then borrowed once more to drain the queue, every release
        attempted, and the depth goes down. */
    method LeaveLuaFrame() returns (failed: bool)
      requires Valid() && luaDepth > 0
      modifies this`pendingReleases, this`freed, this`fault, this`luaDepth, this`luaBorrowed
      ensures Valid() && Value() == Drained(old(Value()))
      ensures failed <==> Refused(old(pendingReleases), refuses)
    {
      var slot := luaDepth - 1;
      luaBorrowed := luaBorrowed - {slot};
      var pending := pendingReleases;
      pendingReleases := [];
      failed := false;
      for i := 0 to |pending|
        invariant freed == old(freed) + pending[..i] && !fault && pendingReleases == []
        invariant luaBorrowed == old(luaBorrowed) - {slot} && luaDepth == old(luaDepth)
        invariant failed <==> Refused(pending[..i], refuses)
      {
        var ok := FreeCallback(slot, pending[i]);
        failed := failed || !ok;
        assert pending[..i + 1] == pending[..i] + [pending[i]];
      }
      assert pending[..|pending|] == pending;
      luaDepth := slot;
    }

    method WithLuaExecutor(forks: bool, body: Calls, fails: bool) returns (r: Result<(), FrameError>)
      requires Valid()
      modifies this
      ensures Valid() && (Value(), r) == RunLua(old(Value()), forks, body, fails)
      decreases body, 1
    {
      var entered := EnterLua(forks);
      if !entered {
        return Err(NoHost);
      }
      BodyKeepsDepth(Value(), body);
      RunCalls(body);
      var failed := LeaveLuaFrame();
      r := if fails then Err(OperationFailed) else if failed then Err(ReleaseFailed) else Ok(());
    }

    method EnterCommand(forks: bool) returns (entered: bool)
      requires Valid()
      modifies this`commandPool, this`commandDepth, this`commandBorrowed, this`fault
      ensures Valid()
      ensures var h := GrowCommand(old(Value()).hosts, forks);
              && (entered <==> h.commandDepth < h.commandPool)
              && Value() == old(Value()).(hosts := if entered then h.(commandDepth := h.commandDepth + 1) else h)
    {
      var slot := commandDepth;
      if commandDepth >= commandPool && commandPool > 0 && forks {
        commandPool := commandPool + 1;
      }
      commandDepth := commandDepth + 1;
      if slot >= commandPool {
        commandDepth := commandDepth - 1;
        return false;
      }
      fault := fault || slot in commandBorrowed;
      commandBorrowed := commandBorrowed + {slot};
      return true;
    }

    method LeaveCommandFrame()
      requires Valid() && commandDepth > 0
      modifies this`commandDepth, this`commandBorrowed
      ensures Valid() && Value() == old(Value()).(hosts := LeaveCommand(old(Value()).hosts))
    {
      commandDepth := commandDepth - 1;
      commandBorrowed := commandBorrowed - {commandDepth};
    }

    method WithCommandExecutor(forks: bool, body: Calls, fails: bool) returns (r: Result<(), FrameError>)
      requires Valid()
      modifies this
      ensures Valid() && (Value(), r) == RunCommand(old(Value()), forks, body, fails)
      decreases body, 1
    {
      var entered := EnterCommand(forks);
      if !entered {
        return Err(NoHost);
      }
      BodyKeepsDepth(Value(), body);
      RunCalls(body);
      LeaveCommandFrame();
      r := if fails then Err(OperationFailed) else Ok(());
    }

    /** Any finite tree of calls, frames within frames of either pool. */
    method RunCalls(calls: Calls)
      requires Valid()
      modifies this
      ensures Valid() && Value() == RunAll(old(Value()), calls)
      decreases calls, 0
    {
      match calls
      case Done =>
      case Then(call, rest) =>
        match call {
          case Release(reference) => ReleaseLuaCallback(reference);
          case SetDecorationProvider(namespace, opts) => var r := SetDecorationProvider(namespace, opts);
          case ExecLua(forks, body, fails) => var r := WithLuaExecutor(forks, body, fails);
          case ExecCommand(forks, body, fails) => var r := WithCommandExecutor(forks, body, fails);
        }
        assert Value() == RunOne(old(Value()), call);
        RunCalls(rest);
    }
  }

  lemma NothingReleased(w: World)
    ensures ReleaseAll(w, []) == w
  {
    assert w.queue + [] == w.queue && w.freed + [] == w.freed;
  }

  lemma OneMoreReleased(w: World, references: seq<nat>, i: nat)
    requires i < |references|
    ensures ReleaseAll(ReleaseAll(w, references[..i]), [references[i]]) == ReleaseAll(w, references[..i + 1])
  {
    assert references[..i + 1] == references[..i] + [references[i]];
    assert w.queue + references[..i] + [references[i]] == w.queue + references[..i + 1];
    assert w.freed + references[..i] + [references[i]] == w.freed + references[..i + 1];
  }

  lemma SameProvider(h: Hosts, namespace: nat)
    ensures Install(h, namespace, Provider(h, namespace)) == h
  {
    if namespace in h.providers {
      assert h.providers[namespace := h.providers[namespace]] == h.providers;
    }
  }

  lemma BodyKeepsDepth(w: World, body: Calls)
    ensures SameDepths(w.hosts, RunAll(w, body).hosts)
  {
    RunAllOwes(w, body);
    AskKeepsDepths(w.hosts, body);
  }

  /** A session from its start: whatever runs before hosts are there, a Lua and a command host
      installed, and whatever runs then. Each release asked for was made once, or is queued;
      and if nothing was asked for before, none is queued and all were made in order. */
  method RunSession(refuses: set<nat>, namespaces: set<nat>, before: Calls, after: Calls)
      returns (executors: Executors, ghost asked: seq<nat>)
    ensures fresh(executors) && executors.Valid()
    ensures var h0 := Hosts(0, 0, 0, 0, namespaces, map[]);
            var h1 := Ask(h0, before).0.(luaPool := 2, commandPool := 2);
            && asked == Ask(h0, before).1 + Ask(h1, after).1
            && executors.luaDepth == 0 && executors.commandDepth == 0
            && multiset(executors.freed + executors.pendingReleases) == multiset(asked)
            && (Ask(h0, before).1 == [] ==> executors.freed == asked && executors.pendingReleases == [])
  {
    executors := new Executors(refuses, namespaces);
    ghost var w0 := executors.Value();
    RunAllOwes(w0, before);
    AskKeepsDepths(w0.hosts, before);
    executors.RunCalls(before);
    ghost var first := Ask(w0.hosts, before);
    executors.SetLuaExecutor();
    executors.SetCommandExecutor();
    ghost var w1 := executors.Value();
    RunAllOwes(w1, after);
    AskKeepsDepths(w1.hosts, after);
    executors.RunCalls(after);
    ghost var second := Ask(w1.hosts, after);
    asked := first.1 + second.1;
    EmissionsChain([], Emitted(w1), Emitted(executors.Value()), first.1, second.1);
    hide RunAll;
    hide Ask;
  }
}
