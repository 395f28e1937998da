/** What the API calls of host code do to the store: each is one of its operations, and
    `AutocmdStore.RemovesExactly` says in the definitions' own terms which of them go. */
module FiringSteps {
  import opened AutocmdStore
  import opened FiringModel
  import opened FiringCoverage

  /** Except for the execution of a plan, each call is one operation of the store, or none, and
      only a snapshot adds a plan. A registration by the API registers a command or function as
      it is, and a callback under a reference that is not in use. */
  ghost predicate StepIs(s: Session, step: Step, t: Session) {
    match step
    case Create(events, patterns, payload, options) =>
      exists kind :: IsPayload(s, payload, kind)
        && t.store == Apply(s.store, OpRegister(events, patterns, kind, options, true))
    case CreateLegacy(events, patterns, command, options) =>
      t.store == Apply(s.store, OpRegister(events, patterns, ExString(command), options, false))
    case DelAutocmd(apiId) => t.store == if apiId == 0 then s.store else Apply(s.store, OpDeleteApiId(apiId))
    case DelGroup(id) => t.store == if IsLive(s.store, id) then Apply(s.store, OpDeleteGroup(id)) else s.store
    case DelGroupNamed(name) =>
      t.store == if name in s.store.names then Apply(s.store, OpDeleteGroup(s.store.names[name])) else s.store
    case ClearAutocmds(filter) =>
      t.store == if filter.group.Some? && (filter.group.value == 0 || IsLive(s.store, filter.group.value))
                 then Apply(s.store, OpClear(filter)) else s.store
    case CreateAugroup(name, clear) => t.store == Apply(s.store, OpCreateGroup(name, clear))
    case DelGroupLegacy(id) => t.store == Apply(s.store, OpDeleteGroupLegacy(id))
    case WipeBuffer(buffer) => t.store == Apply(s.store, OpRemoveBuffer(buffer))
    case Snapshot(event, within, context) => t.store == s.store
    case Execute(k, runs) => true
  }

  predicate IsLive(s: Store, id: GroupId) {
    exists name :: name in s.names && s.names[name] == id
  }

  predicate IsPayload(s: Session, payload: Payload, kind: Kind) {
    match payload
    case Command(source) => kind == ExString(source)
    case Function(name) => kind == VimscriptFunction(name)
    case Callback(_) => kind.LuaCallback? && kind.reference !in s.owned
  }

  lemma StripAndReleaseStore(s: Session, doomed: Entry -> bool)
    ensures StripAndRelease(s, doomed).store == Drop(s.store, doomed)
    ensures StripAndRelease(s, doomed).plans == s.plans
    ensures Dropped(s.store, doomed) == [] ==> Drop(s.store, doomed) == s.store
  {
    ReleaseKeeps(Strip(s, doomed), Dropped(s.store, doomed));
    if Dropped(s.store, doomed) == [] {
      assert Retain(s.store.entries, doomed) == [];
      RetainKeeps(s.store.entries, doomed);
      RetainAll(s.store.entries, Not(doomed));
    }
  }

  lemma LiveIs(s: Store, id: GroupId)
    requires Valid(s)
    ensures IsLive(s, id) <==> id in s.groups && s.groups[id].Live?
  {
    if id in s.groups && s.groups[id].Live? {
      assert s.names[s.groups[id].name] == id;
    }
  }

  lemma DeleteAugroupStore(s: Session, id: GroupId)
    requires Valid(s.store)
    ensures DeleteAugroup(s, id).plans == s.plans
    ensures DeleteAugroup(s, id).store == if IsLive(s.store, id) then Apply(s.store, OpDeleteGroup(id)) else s.store
  {
    LiveIs(s.store, id);
    if id in s.store.groups && s.store.groups[id].Live? {
      var gone := Retain(s.store.entries, InGroup(id));
      ReleaseKeeps(Replace(s, DeleteGroup(s.store, id).value, gone), Kinds(gone));
    }
  }

  lemma CreateStore(s: Session, events: seq<Event>, patterns: string, payload: Payload, options: Options)
      returns (kind: Kind)
    ensures IsPayload(s, payload, kind)
    ensures CreateAutocmd(s, events, patterns, payload, options).store
         == Apply(s.store, OpRegister(events, patterns, kind, options, true))
  {
    kind := Acquire(s, payload).1;
    hide Register;
  }

  lemma AugroupStore(s: Session, name: string, clear: bool)
    requires Valid(s.store)
    ensures Augroup(s, name, clear).store == Apply(s.store, OpCreateGroup(name, clear))
  {
  }

  lemma StepIsOk(s: Session, step: Step)
    requires Valid(s.store)
    ensures StepIs(s, step, RunStep(s, step))
  {
    match step
    case Create(events, patterns, payload, options) =>
      var kind := CreateStore(s, events, patterns, payload, options);
    case CreateLegacy(events, patterns, command, options) => hide Register;
    case DelAutocmd(apiId) => StripAndReleaseStore(s, WithApiId(apiId));
    case DelGroup(id) => DeleteAugroupStore(s, id);
    case DelGroupNamed(name) =>
      if name in s.store.names {
        DeleteAugroupStore(s, s.store.names[name]);
        assert IsLive(s.store, s.store.names[name]);
      }
    case ClearAutocmds(filter) =>
      StripAndReleaseStore(s, ByFilter(s.store, filter));
      if filter.group.Some? {
        LiveIs(s.store, filter.group.value);
      }
    case CreateAugroup(name, clear) => AugroupStore(s, name, clear);
    case DelGroupLegacy(id) =>
    case WipeBuffer(buffer) =>
    case Snapshot(event, within, context) =>
    case Execute(k, runs) =>
  }

  lemma StepPlans(s: Session, step: Step)
    requires Valid(s.store)
    ensures var t := RunStep(s, step);
            && (step.Snapshot? ==> t.plans == s.plans + [Plan(s.store, step.event, step.within, step.context)])
            && (!step.Snapshot? && !step.Execute? ==> t.plans == s.plans)
  {
    hide Plan;
    hide Register;
    hide ExecutePlan;
    match step
    case DelAutocmd(apiId) => StripAndReleaseStore(s, WithApiId(apiId));
    case DelGroup(id) => DeleteAugroupStore(s, id);
    case DelGroupNamed(name) =>
      if name in s.store.names {
        DeleteAugroupStore(s, s.store.names[name]);
      }
    case ClearAutocmds(filter) => StripAndReleaseStore(s, ByFilter(s.store, filter));
    case _ =>
  }
}
