/** Firing plans, re-entrant host code and Lua-reference ownership. Host code is an
    arbitrary finite tree of API steps; each step runs at the depth of the frame it is in. */
module FiringModel {
  import opened Wrappers
  import opened AutocmdPatterns
  import opened AutocmdStore

  // ----- host code as a tree

  datatype Payload = Command(source: string) | Function(name: string) | Callback(hint: nat)

  datatype Step =
    | Create(events: seq<Event>, patterns: string, payload: Payload, options: Options)
    | CreateLegacy(events: seq<Event>, patterns: string, command: string, options: Options)
    | DelAutocmd(apiId: nat)
    | DelGroup(group: GroupId)
    | DelGroupNamed(name: string)
    | ClearAutocmds(filter: Filter)
    | CreateAugroup(name: string, clear: bool)
    | DelGroupLegacy(group: GroupId)
    | WipeBuffer(buffer: Buffer)
    | Snapshot(event: Event, within: Option<GroupId>, context: Context)
    | Execute(plan: nat, runs: Runs)

  datatype Steps = Done | Then(step: Step, rest: Steps)

  datatype Outcome = Keep | Delete | Fail

  /** What the host does for the successive actions of one plan: whether a deeper host can
      be forked if one is needed, the API steps the handler makes, and how it ends. */
  datatype Runs = Quiet | Visit(forks: bool, body: Steps, outcome: Outcome, rest: Runs)

  // ----- the session

  /** One observable event. `Consumed` is the removal of a one-shot definition as it begins
      to run; `Removed` is any other removal. */
  datatype Obs = Ran(id: nat, once: bool, frame: nat) | Consumed(id: nat) | Removed(id: nat)

  /** The session with what surrounds it: the plans the host has taken so far, the Lua
      references acquired and not freed, those whose payload was thrown away or never
      stored, the frees that the host refused, in order, and the trace. `fault` is raised by a
      borrow of a borrowed slot, a free that is early, double or of a reference in use, and a
      call of a freed callback. */
  datatype Session = Session(
    store: Store, slots: nat, borrowed: set<nat>, depth: nat, pending: seq<nat>, refuses: set<nat>,
    plans: seq<seq<Action>>, owned: set<nat>, discarded: set<nat>, unregistered: set<nat>,
    refused: seq<nat>, trace: seq<Obs>, frames: nat, fault: bool)

  function NewSession(refuses: set<nat>): Session {
    Session(NewStore(), 0, {}, 0, [], refuses, [], {}, {}, {}, [], [], 0, false)
  }

  /** Hosts are installed at depth zero only: a primary and a nested one. */
  function InstallHosts(s: Session): Session {
    s.(slots := 2, borrowed := {}, depth := 0)
  }

  // ----- removals and releases

  function RemovedIds(gone: seq<Entry>): seq<Obs> {
    seq(|gone|, i requires 0 <= i < |gone| => Removed(gone[i].id))
  }

  function Replace(s: Session, store: Store, gone: seq<Entry>): Session {
    s.(store := store, trace := s.trace + RemovedIds(gone))
  }

  function Strip(s: Session, doomed: Entry -> bool): Session {
    Replace(s, Drop(s.store, doomed), Retain(s.store.entries, doomed))
  }

  function LuaRefs(kinds: seq<Kind>): set<nat> {
    set k | k in kinds && k.LuaCallback? :: k.reference
  }

  function Elements(references: seq<nat>): set<nat> {
    set r | r in references
  }

  function Enqueue(pending: seq<nat>, reference: nat): seq<nat> {
    if reference in pending then pending else pending + [reference]
  }

  /** The host is asked to free one reference; the answer says whether it did. */
  function ReleaseOne(s: Session, reference: nat): (Session, bool) {
    if s.depth > 0 || s.slots == 0 then (s.(pending := Enqueue(s.pending, reference)), true)
    else
      var fault := s.fault || 0 in s.borrowed || reference !in s.owned || UsesLuaCallback(s.store, reference);
      if reference in s.refuses then
        (s.(discarded := s.discarded + {reference}, refused := s.refused + [reference], fault := fault), false)
      else (s.(owned := s.owned - {reference}, fault := fault), true)
  }

  function ReleaseEach(s: Session, references: seq<nat>): (Session, bool)
    decreases |references|
  {
    if references == [] then (s, true)
    else if UsesLuaCallback(s.store, references[0]) then ReleaseEach(s, references[1..])
    else
      var (s', ok) := ReleaseOne(s, references[0]);
      if ok then ReleaseEach(s', references[1..])
      else (s'.(discarded := s'.discarded + Elements(references[1..])), false)
  }

  function Collect(references: seq<nat>, kinds: seq<Kind>): seq<nat>
    decreases |kinds|
  {
    if kinds == [] then references
    else Collect(if kinds[0].LuaCallback? then Enqueue(references, kinds[0].reference) else references, kinds[1..])
  }

  function ReleaseRemoved(s: Session, kinds: seq<Kind>): (Session, bool) {
    ReleaseEach(s.(pending := []), Collect(s.pending, kinds))
  }

  // ----- frames

  /** The pool grows by a forked host when the depth has no slot; there is a prototype to
      fork from only once hosts have been installed. */
  function Grow(s: Session, forks: bool): Session {
    if 0 < s.slots <= s.depth && forks then s.(slots := s.slots + 1) else s
  }

  /** A frame that found its slot: it borrows the slot and calls the host. */
  function Enter(s: Session, a: Action, frame: nat): Session {
    s.(depth := s.depth + 1, borrowed := s.borrowed + {s.depth}, trace := s.trace + [Ran(a.id, a.once, frame)],
       fault := s.fault || s.depth in s.borrowed || (a.kind.LuaCallback? && a.kind.reference !in s.owned))
  }

  function Leave(s: Session): Session {
    if s.depth == 0 then s.(fault := true)
    else s.(depth := s.depth - 1, borrowed := s.borrowed - {s.depth - 1})
  }

  function WithExecutor(s: Session, a: Action, runs: Runs, frame: nat): (Session, Outcome)
    decreases runs, 0
  {
    var s' := Grow(s, runs.Visit? && runs.forks);
    if s'.depth >= s'.slots then (s', Keep)
    else
      var inside := Enter(s', a, frame);
      match runs
      case Quiet => (Leave(inside), Keep)
      case Visit(_, body, outcome, _) => (Leave(RunSteps(inside, body)), outcome)
  }

  /** A one-shot definition leaves the store before its host runs. */
  function Consume(s: Session, a: Action): (Session, seq<Kind>) {
    if a.once then
      (s.(store := Drop(s.store, OnceWithId(a.id)), trace := s.trace + [Consumed(a.id)]),
       Listed(DroppedLast(s.store, OnceWithId(a.id))))
    else (s, [])
  }

  function Settle(s: Session, a: Action, outcome: Outcome, removed: seq<Kind>): (Session, bool) {
    if outcome == Delete then
      ReleaseRemoved(Strip(s, WithId(a.id)), removed + Listed(DroppedLast(s.store, WithId(a.id))))
    else ReleaseRemoved(s, removed)
  }

  function Next(runs: Runs): Runs {
    if runs.Visit? then runs.rest else Quiet
  }

  function ExecutePlan(s: Session, plan: seq<Action>, runs: Runs, frame: nat): (Session, bool)
    decreases runs, 1, |plan|
  {
    if plan == [] then (s, true)
    else if !LiveEntry(s.store, plan[0].id) then ExecutePlan(s, plan[1..], runs, frame)
    else
      var a := plan[0];
      var (s1, removed) := Consume(s, a);
      var (s2, outcome) := WithExecutor(s1, a, runs, frame);
      var (s3, cleaned) := Settle(s2, a, outcome, removed);
      if outcome == Fail || !cleaned then (s3, false) else ExecutePlan(s3, plan[1..], Next(runs), frame)
  }

  // ----- steps

  /** The Lua bridge acquires a reference that is not in use; freed numbers may come back. */
  function Acquire(s: Session, payload: Payload): (Session, Kind) {
    match payload
    case Command(source) => (s, ExString(source))
    case Function(name) => (s, VimscriptFunction(name))
    case Callback(hint) =>
      var reference := FreshId(s.owned, hint);
      (s.(owned := s.owned + {reference}), LuaCallback(reference))
  }

  function CreateAutocmd(s: Session, events: seq<Event>, patterns: string, payload: Payload,
                         options: Options): Session {
    var (s', kind) := Acquire(s, payload);
    match Register(s'.store, events, patterns, kind, options, true)
    case Ok(store) => s'.(store := store)
    case Err(_) => s'.(unregistered := s'.unregistered + LuaRefs([kind]))
  }

  /** Removes what a test selects and releases the payloads. */
  function StripAndRelease(s: Session, doomed: Entry -> bool): Session {
    ReleaseRemoved(Strip(s, doomed), Dropped(s.store, doomed)).0
  }

  /** Removes what a test selects and throws the payloads away. */
  function StripAndDiscard(s: Session, doomed: Entry -> bool): Session {
    Strip(s, doomed).(discarded := s.discarded + LuaRefs(Dropped(s.store, doomed)))
  }

  function DeleteAugroup(s: Session, id: GroupId): Session {
    if id in s.store.groups && s.store.groups[id].Live? then
      var gone := Retain(s.store.entries, InGroup(id));
      ReleaseRemoved(Replace(s, DeleteGroup(s.store, id).value, gone), Kinds(gone)).0
    else s
  }

  function Augroup(s: Session, name: string, clear: bool): Session {
    if name != [] && name in s.store.names then
      var id := s.store.names[name];
      if clear && LiveGroup(s.store, id) then StripAndDiscard(s, InGroup(id)) else s
    else match CreateGroup(s.store, name, clear)
      case Ok((store, _)) => s.(store := store)
      case Err(_) => s
  }

  function RunStep(s: Session, step: Step): Session
    decreases step, 0
  {
    match step
    case Create(events, patterns, payload, options) => CreateAutocmd(s, events, patterns, payload, options)
    case CreateLegacy(events, patterns, command, options) =>
      s.(store := OrSame(s.store, Register(s.store, events, patterns, ExString(command), options, false)))
    case DelAutocmd(apiId) =>
      if apiId == 0 || Dropped(s.store, WithApiId(apiId)) == [] then s else StripAndRelease(s, WithApiId(apiId))
    case DelGroup(id) => DeleteAugroup(s, id)
    case DelGroupNamed(name) => if name in s.store.names then DeleteAugroup(s, s.store.names[name]) else s
    case ClearAutocmds(filter) =>
      if filter.group.Some? && LiveGroup(s.store, filter.group.value) then StripAndRelease(s, ByFilter(s.store, filter))
      else s
    case CreateAugroup(name, clear) => Augroup(s, name, clear)
    case DelGroupLegacy(id) => s.(store := OrSame(s.store, DeleteGroupLegacy(s.store, id)))
    case WipeBuffer(buffer) => StripAndDiscard(s, LocalTo(buffer))
    case Snapshot(event, within, context) => s.(plans := s.plans + [Plan(s.store, event, within, context)])
    case Execute(k, runs) =>
      if k < |s.plans| then ExecutePlan(s.(frames := s.frames + 1), s.plans[k], runs, s.frames).0 else s
  }

  function RunSteps(s: Session, steps: Steps): Session
    decreases steps, 0
  {
    match steps
    case Done => s
    case Then(step, rest) => RunSteps(RunStep(s, step), rest)
  }
}
