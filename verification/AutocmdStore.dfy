/** Augroups and autocommand definitions: the value a store stands for, its operations,
    and what every operation keeps. */
module AutocmdStore {
  import opened Wrappers
  import opened AutocmdPatterns
  import Braces
  import Globs

  /** Events are named by their position in the event table. */
  type Event = nat

  /** Augroup 0 is the default group; it is never stored. */
  type GroupId = nat

  datatype Kind = ExString(command: string) | VimscriptFunction(name: string) | LuaCallback(reference: nat)

  datatype Options = Options(group: GroupId, buffer: Option<Buffer>, once: bool, nested: bool)

  datatype Entry = Entry(
    id: nat, apiId: Option<nat>, sequence: nat, event: Event,
    pattern: StoredPattern, source: string, kind: Kind, options: Options)

  datatype GroupState = Live(name: string) | Tombstoned

  datatype Store = Store(
    groups: map<GroupId, GroupState>, names: map<string, GroupId>, entries: seq<Entry>, ignored: set<Event>,
    nextEntry: nat, nextApi: nat, nextGroup: nat, nextSequence: nat)

  const POPUPMENU := "nvim.popupmenu"

  function NewStore(): Store {
    Store(map[1 := Live(POPUPMENU)], map[POPUPMENU := 1], [], {}, 1, 1, 2, 1)
  }

  // ----- selecting entries

  function Retain(entries: seq<Entry>, keep: Entry -> bool): seq<Entry> {
    if entries == [] then []
    else (if keep(entries[0]) then [entries[0]] else []) + Retain(entries[1..], keep)
  }

  function Kinds(entries: seq<Entry>): seq<Kind> {
    seq(|entries|, i requires 0 <= i < |entries| => entries[i].kind)
  }

  function Not(doomed: Entry -> bool): Entry -> bool {
    (e: Entry) => !doomed(e)
  }

  function Drop(s: Store, doomed: Entry -> bool): Store {
    s.(entries := Retain(s.entries, Not(doomed)))
  }

  /** The payloads a removal hands back, in registration order. */
  function Dropped(s: Store, doomed: Entry -> bool): seq<Kind> {
    Kinds(Retain(s.entries, doomed))
  }

  /** A removal of one entry keeps the payload it took last. */
  function DroppedLast(s: Store, doomed: Entry -> bool): Option<Kind> {
    var kinds := Dropped(s, doomed); if kinds == [] then None else Some(kinds[|kinds| - 1])
  }

  function Listed(kind: Option<Kind>): seq<Kind> {
    if kind.Some? then [kind.value] else []
  }

  // ----- groups

  predicate LiveGroup(s: Store, id: GroupId) {
    id == 0 || (id in s.groups && s.groups[id].Live?)
  }

  /** The first unused number from a candidate on. */
  function FreshId(used: set<nat>, candidate: nat): (id: nat)
    ensures id >= candidate && id !in used
    decreases |set k | k in used && k >= candidate|
  {
    if candidate !in used then candidate
    else
      var above := set k | k in used && k >= candidate + 1;
      var all := set k | k in used && k >= candidate;
      assert candidate in all && candidate !in above;
      FewerElements(above, all);
      FreshId(used, candidate + 1)
  }

  function FreshGroup(groups: map<GroupId, GroupState>, candidate: GroupId): (id: GroupId)
    ensures id >= candidate && id !in groups
  {
    FreshId(groups.Keys, candidate)
  }

  lemma FewerElements(a: set<nat>, b: set<nat>)
    requires a < b
    ensures |a| < |b|
  {
    var x :| x in b && x !in a;
    assert a <= b - {x};
    SubsetSize(a, b - {x});
  }

  lemma {:induction false} SubsetSize(a: set<nat>, b: set<nat>)
    requires a <= b
    ensures |a| <= |b|
  {
    if a != {} {
      var x :| x in a;
      SubsetSize(a - {x}, b - {x});
    }
  }

  function InGroup(id: GroupId): Entry -> bool {
    (e: Entry) => e.options.group == id
  }

  function CreateGroup(s: Store, name: string, clear: bool): Result<(Store, GroupId), AutocmdError> {
    if name == [] then Err(EmptyGroupName)
    else if name in s.names then
      var id := s.names[name];
      if clear && !LiveGroup(s, id) then Err(UnknownGroup)
      else Ok((if clear then Drop(s, InGroup(id)) else s, id))
    else
      var id := FreshGroup(s.groups, s.nextGroup);
      Ok((s.(groups := s.groups[id := Live(name)], names := s.names[name := id], nextGroup := id + 1), id))
  }

  function DeleteGroup(s: Store, id: GroupId): Result<Store, AutocmdError> {
    if id !in s.groups then Err(UnknownGroup)
    else
      var names := if s.groups[id].Live? then s.names - {s.groups[id].name} else s.names;
      Ok(Drop(s.(groups := s.groups - {id}, names := names), InGroup(id)))
  }

  function DeleteGroupLegacy(s: Store, id: GroupId): Result<Store, AutocmdError> {
    if id in s.groups && s.groups[id].Live? then
      Ok(s.(groups := s.groups[id := Tombstoned], names := s.names - {s.groups[id].name}))
    else Err(UnknownGroup)
  }

  function ClearGroup(s: Store, id: GroupId): Result<Store, AutocmdError> {
    if !LiveGroup(s, id) then Err(UnknownGroup) else Ok(Drop(s, InGroup(id)))
  }

  // ----- registration

  function ParseAll(parts: seq<string>, fallback: Option<Buffer>): Result<seq<Parsed>, AutocmdError> {
    if parts == [] then Ok([])
    else if parts[0] == [] then ParseAll(parts[1..], fallback)
    else match ParsePattern(parts[0], fallback)
      case Err(e) => Err(e)
      case Ok(p) => match ParseAll(parts[1..], fallback) case Err(e) => Err(e) case Ok(ps) => Ok([p] + ps)
  }

  function ParseRegistration(s: Store, patterns: string, options: Options): Result<seq<Parsed>, AutocmdError> {
    if !LiveGroup(s, options.group) then Err(UnknownGroup)
    else match Braces.Split(patterns)
      case Err(_) => Err(AutocmdError.UnbalancedBraces)
      case Ok(parts) =>
        if forall part :: part in parts ==> part == [] then Err(EmptyPattern)
        else ParseAll(parts, options.buffer)
  }

  /** Every pattern with every event, the pattern varying slowest. */
  function Pairs(parsed: seq<Parsed>, events: seq<Event>): (r: seq<(Parsed, Event)>)
    ensures |r| == |parsed| * |events|
  {
    if parsed == [] then []
    else seq(|events|, i requires 0 <= i < |events| => (parsed[0], events[i])) + Pairs(parsed[1..], events)
  }

  /** What a batch shares besides its patterns and events. */
  datatype Batch = Batch(kind: Kind, options: Options, apiId: Option<nat>)

  function NewEntry(s: Store, batch: Batch, pair: (Parsed, Event)): Entry {
    Entry(s.nextEntry, batch.apiId, s.nextSequence, pair.1, pair.0.stored, pair.0.source, batch.kind, batch.options)
  }

  function AddEntry(s: Store, batch: Batch, pair: (Parsed, Event)): Store {
    s.(entries := s.entries + [NewEntry(s, batch, pair)],
       nextEntry := s.nextEntry + 1, nextSequence := s.nextSequence + 1)
  }

  function Commit(s: Store, batch: Batch, pairs: seq<(Parsed, Event)>): Store
    decreases |pairs|
  {
    if pairs == [] then s else Commit(AddEntry(s, batch, pairs[0]), batch, pairs[1..])
  }

  function Register(s: Store, events: seq<Event>, patterns: string, kind: Kind, options: Options, api: bool)
      : Result<Store, AutocmdError>
  {
    if events == [] then Err(EmptyEvent)
    else match ParseRegistration(s, patterns, options)
      case Err(e) => Err(e)
      case Ok(parsed) =>
        var s' := if api then s.(nextApi := s.nextApi + 1) else s;
        Ok(Commit(s', Batch(kind, options, if api then Some(s.nextApi) else None), Pairs(parsed, events)))
  }

  // ----- queries and removals

  datatype Filter = Filter(
    group: Option<GroupId>, events: Option<set<Event>>, patterns: Option<set<string>>,
    buffers: Option<set<Buffer>>, apiId: Option<nat>)

  predicate MatchesFilter(s: Store, e: Entry, f: Filter) {
    && (f.group.Some? ==> f.group.value == e.options.group && LiveGroup(s, f.group.value))
    && (f.events.Some? ==> e.event in f.events.value)
    && (f.patterns.Some? ==> e.source in f.patterns.value)
    && (f.buffers.Some? ==> e.pattern.BufferLocal? && e.pattern.handle in f.buffers.value)
    && (f.apiId.Some? ==> e.apiId == f.apiId)
  }

  function ByFilter(s: Store, f: Filter): Entry -> bool {
    (e: Entry) => MatchesFilter(s, e, f)
  }

  const DELETED := "--Deleted--"

  datatype Definition = Definition(
    id: nat, apiId: Option<nat>, event: Event, group: GroupId, groupName: Option<string>,
    pattern: string, buffer: Option<Buffer>, kind: Kind, once: bool, nested: bool)

  function GroupName(s: Store, id: GroupId): Option<string> {
    if id !in s.groups then None else Some(if s.groups[id].Live? then s.groups[id].name else DELETED)
  }

  function Define(s: Store, e: Entry): Definition {
    Definition(e.id, e.apiId, e.event, e.options.group, GroupName(s, e.options.group), e.source,
               if e.pattern.BufferLocal? then Some(e.pattern.handle) else None,
               e.kind, e.options.once, e.options.nested)
  }

  function Query(s: Store, f: Filter): seq<Definition> {
    var found := Retain(s.entries, ByFilter(s, f));
    seq(|found|, i requires 0 <= i < |found| => Define(s, found[i]))
  }

  function WithApiId(id: nat): Entry -> bool {
    (e: Entry) => e.apiId == Some(id)
  }

  function WithId(id: nat): Entry -> bool {
    (e: Entry) => e.id == id
  }

  function OnceWithId(id: nat): Entry -> bool {
    (e: Entry) => e.id == id && e.options.once
  }

  function LocalTo(buffer: Buffer): Entry -> bool {
    (e: Entry) => e.pattern == BufferLocal(buffer)
  }

  predicate LiveEntry(s: Store, id: nat) {
    exists e :: e in s.entries && e.id == id
  }

  predicate UsesLuaCallback(s: Store, reference: nat) {
    exists e :: e in s.entries && e.kind == LuaCallback(reference)
  }

  // ----- firing plans

  datatype Context = Context(buffer: Option<Buffer>, name: Option<string>, nested: bool)

  datatype Action = Action(
    id: nat, apiId: Option<nat>, event: Event, kind: Kind, once: bool, nested: bool,
    group: GroupId, groupName: Option<string>, source: string, buffer: Option<Buffer>)

  function ActionOf(s: Store, e: Entry, context: Context): Action {
    Action(e.id, e.apiId, e.event, e.kind, e.options.once, e.options.nested,
           e.options.group, GroupName(s, e.options.group), e.source,
           if context.buffer.Some? then context.buffer
           else if e.pattern.BufferLocal? then Some(e.pattern.handle) else None)
  }

  function Fires(event: Event, group: Option<GroupId>, context: Context): Entry -> bool {
    (e: Entry) => && e.event == event
         && (group.Some? ==> e.options.group == group.value)
         && PatternMatches(e.pattern, context.buffer, context.name)
  }

  /** A stable sort by sequence. */
  function SortBySequence(entries: seq<Entry>): seq<Entry> {
    if entries == [] then [] else Insert(entries[0], SortBySequence(entries[1..]))
  }

  function Insert(e: Entry, sorted: seq<Entry>): seq<Entry> {
    if sorted == [] || e.sequence <= sorted[0].sequence then [e] + sorted else [sorted[0]] + Insert(e, sorted[1..])
  }

  function Plan(s: Store, event: Event, group: Option<GroupId>, context: Context): seq<Action> {
    if event in s.ignored || !context.nested then []
    else
      var matched := SortBySequence(Retain(s.entries, Fires(event, group, context)));
      seq(|matched|, i requires 0 <= i < |matched| => ActionOf(s, matched[i], context))
  }

  // ----- what every operation keeps

  /** Names are exactly the inverse of the live groups. */
  ghost predicate NamesMatch(s: Store) {
    && (forall n :: n in s.names ==> s.names[n] in s.groups && s.groups[s.names[n]] == Live(n))
    && (forall g :: g in s.groups && s.groups[g].Live? ==>
        s.groups[g].name in s.names && s.names[s.groups[g].name] == g)
  }

  ghost predicate EntryOk(s: Store, e: Entry) {
    && (e.options.group == 0 || e.options.group in s.groups)
    && e.id < s.nextEntry && e.sequence < s.nextSequence
    && (e.apiId.Some? ==> e.apiId.value < s.nextApi)
  }

  predicate Before(a: Entry, b: Entry) {
    a.id < b.id && a.sequence < b.sequence
  }

  predicate Ordered(entries: seq<Entry>) {
    forall i, j :: 0 <= i < j < |entries| ==> Before(entries[i], entries[j])
  }

  ghost predicate Valid(s: Store) {
    && NamesMatch(s)
    && s.nextGroup > 0 && (forall g :: g in s.groups ==> 0 < g < s.nextGroup)
    && (forall e :: e in s.entries ==> EntryOk(s, e))
    && Ordered(s.entries)
  }

  lemma {:induction false} RetainKeeps(entries: seq<Entry>, keep: Entry -> bool)
    ensures forall e :: e in Retain(entries, keep) <==> e in entries && keep(e)
    ensures |Retain(entries, keep)| <= |entries|
  {
    if entries != [] {
      RetainKeeps(entries[1..], keep);
      assert entries == [entries[0]] + entries[1..];
    }
  }

  lemma {:induction false} RetainOrdered(entries: seq<Entry>, keep: Entry -> bool)
    requires Ordered(entries)
    ensures Ordered(Retain(entries, keep))
  {
    if entries != [] {
      RetainOrdered(entries[1..], keep);
      var kept := Retain(entries[1..], keep);
      RetainKeeps(entries[1..], keep);
      forall j | 0 <= j < |kept|
        ensures Before(entries[0], kept[j])
      {
        assert kept[j] in entries[1..];
      }
    }
  }

  lemma DropValid(s: Store, doomed: Entry -> bool)
    requires Valid(s)
    ensures Valid(Drop(s, doomed))
    ensures forall e :: e in Drop(s, doomed).entries <==> e in s.entries && !doomed(e)
  {
    RetainKeeps(s.entries, Not(doomed));
    RetainOrdered(s.entries, Not(doomed));
    var t := Drop(s, doomed);
    assert forall e :: e in t.entries ==> EntryOk(s, e) && EntryOk(t, e);
  }

  lemma AtMostOne(gone: seq<Entry>, id: nat)
    requires Ordered(gone) && forall e :: e in gone ==> e.id == id
    ensures |gone| <= 1
  {
    assert forall k :: 0 <= k < |gone| ==> gone[k] in gone;
    var first, second := if |gone| > 1 then gone[0].id else 0, if |gone| > 1 then gone[1].id else 1;
    assert first < second;
  }

  lemma ListedIfOne(s: Store, doomed: Entry -> bool)
    requires |Retain(s.entries, doomed)| <= 1
    ensures Listed(DroppedLast(s, doomed)) == Dropped(s, doomed)
  {
    hide Retain;
  }

  /** Ids are unique, so a removal by id drops at most one payload. */
  lemma DropsOne(s: Store, doomed: Entry -> bool, id: nat)
    requires Valid(s) && forall e :: doomed(e) ==> e.id == id
    ensures Listed(DroppedLast(s, doomed)) == Dropped(s, doomed)
  {
    RetainOrdered(s.entries, doomed);
    RetainKeeps(s.entries, doomed);
    hide *;
    AtMostOne(Retain(s.entries, doomed), id);
    ListedIfOne(s, doomed);
  }

  /** A new store has one group, made beforehand, and no definitions; ids start at one. */
  lemma NewValid()
    ensures Valid(NewStore()) && NewStore().names == map["nvim.popupmenu" := 1] && NewStore().entries == []
    ensures NewStore().nextEntry == NewStore().nextApi == NewStore().nextSequence == 1 && NewStore().ignored == {}
  {
  }

  lemma CreateGroupValid(s: Store, name: string, clear: bool)
    requires Valid(s) && CreateGroup(s, name, clear).Ok?
    ensures Valid(CreateGroup(s, name, clear).value.0)
    ensures var (t, id) := CreateGroup(s, name, clear).value;
            t.nextGroup >= s.nextGroup && id in t.groups && t.groups[id] == Live(name)
  {
    var (t, id) := CreateGroup(s, name, clear).value;
    if name in s.names {
      DropValid(s, InGroup(id));
    } else {
      assert forall e :: e in s.entries ==> EntryOk(s, e) && EntryOk(t, e);
    }
  }

  /** A group created under a name not in use gets an id that no group ever had, so no
      existing definition belongs to it. */
  lemma FreshGroupIsEmpty(s: Store, name: string, clear: bool)
    requires Valid(s) && name != [] && name !in s.names
    ensures CreateGroup(s, name, clear).Ok?
    ensures var (t, id) := CreateGroup(s, name, clear).value;
            && id >= s.nextGroup && id !in s.groups && t.entries == s.entries
            && forall e :: e in t.entries ==> e.options.group != id
  {
    var id := CreateGroup(s, name, clear).value.1;
    forall e | e in s.entries
      ensures e.options.group != id
    {
      assert EntryOk(s, e);
    }
  }

  lemma DeleteGroupValid(s: Store, id: GroupId)
    requires Valid(s) && DeleteGroup(s, id).Ok?
    ensures Valid(DeleteGroup(s, id).value)
  {
    var names := if s.groups[id].Live? then s.names - {s.groups[id].name} else s.names;
    var t := s.(groups := s.groups - {id}, names := names);
    RetainKeeps(t.entries, Not(InGroup(id)));
    RetainOrdered(t.entries, Not(InGroup(id)));
    var u := Drop(t, InGroup(id));
    assert forall e :: e in u.entries ==> EntryOk(s, e) && EntryOk(u, e);
  }

  lemma DeleteGroupLegacyValid(s: Store, id: GroupId)
    requires Valid(s) && DeleteGroupLegacy(s, id).Ok?
    ensures Valid(DeleteGroupLegacy(s, id).value)
  {
    var t := DeleteGroupLegacy(s, id).value;
    assert forall e :: e in t.entries ==> EntryOk(s, e) && EntryOk(t, e);
  }

  lemma AddEntryValid(s: Store, batch: Batch, pair: (Parsed, Event))
    requires Valid(s)
    requires batch.options.group == 0 || batch.options.group in s.groups
    requires batch.apiId.Some? ==> batch.apiId.value < s.nextApi
    ensures Valid(AddEntry(s, batch, pair))
  {
    var t := AddEntry(s, batch, pair);
    forall e | e in t.entries
      ensures EntryOk(t, e)
    {
      assert e in s.entries ==> EntryOk(s, e);
    }
    forall i | 0 <= i < |s.entries|
      ensures Before(t.entries[i], t.entries[|s.entries|])
    {
      assert EntryOk(s, s.entries[i]);
    }
  }

  lemma {:induction false} CommitValid(s: Store, batch: Batch, pairs: seq<(Parsed, Event)>)
    requires Valid(s)
    requires batch.options.group == 0 || batch.options.group in s.groups
    requires batch.apiId.Some? ==> batch.apiId.value < s.nextApi
    ensures Valid(Commit(s, batch, pairs))
    ensures Commit(s, batch, pairs).nextGroup == s.nextGroup
    decreases |pairs|
  {
    if pairs != [] {
      AddEntryValid(s, batch, pairs[0]);
      CommitValid(AddEntry(s, batch, pairs[0]), batch, pairs[1..]);
    }
  }

  lemma RegisterValid(s: Store, events: seq<Event>, patterns: string, kind: Kind, options: Options, api: bool)
    requires Valid(s) && Register(s, events, patterns, kind, options, api).Ok?
    ensures Valid(Register(s, events, patterns, kind, options, api).value)
    ensures Register(s, events, patterns, kind, options, api).value.nextGroup == s.nextGroup
  {
    var parsed := ParseRegistration(s, patterns, options).value;
    var t := if api then s.(nextApi := s.nextApi + 1) else s;
    assert forall e :: e in t.entries ==> EntryOk(s, e) && EntryOk(t, e);
    CommitValid(t, Batch(kind, options, if api then Some(s.nextApi) else None), Pairs(parsed, events));
  }

  // ----- every sequence of operations

  datatype Op =
    | OpCreateGroup(name: string, clear: bool)
    | OpDeleteGroup(id: GroupId)
    | OpDeleteGroupLegacy(id: GroupId)
    | OpClearGroup(id: GroupId)
    | OpRegister(events: seq<Event>, patterns: string, kind: Kind, options: Options, api: bool)
    | OpClear(filter: Filter)
    | OpDeleteApiId(apiId: nat)
    | OpDeleteEntry(entry: nat)
    | OpConsumeOnce(entry: nat)
    | OpRemoveBuffer(buffer: Buffer)
    | OpIgnore(event: Event)
    | OpUnignore(event: Event)

  function OrSame(s: Store, r: Result<Store, AutocmdError>): Store {
    if r.Ok? then r.value else s
  }

  function Apply(s: Store, op: Op): Store {
    match op
    case OpCreateGroup(name, clear) =>
      var r := CreateGroup(s, name, clear); if r.Ok? then r.value.0 else s
    case OpDeleteGroup(id) => OrSame(s, DeleteGroup(s, id))
    case OpDeleteGroupLegacy(id) => OrSame(s, DeleteGroupLegacy(s, id))
    case OpClearGroup(id) => OrSame(s, ClearGroup(s, id))
    case OpRegister(events, patterns, kind, options, api) =>
        OrSame(s, Register(s, events, patterns, kind, options, api))
    case OpClear(filter) => Drop(s, ByFilter(s, filter))
    case OpDeleteApiId(id) => Drop(s, WithApiId(id))
    case OpDeleteEntry(id) => Drop(s, WithId(id))
    case OpConsumeOnce(id) => Drop(s, OnceWithId(id))
    case OpRemoveBuffer(buffer) => Drop(s, LocalTo(buffer))
    case OpIgnore(event) => s.(ignored := s.ignored + {event})
    case OpUnignore(event) => s.(ignored := s.ignored - {event})
  }

  function Run(s: Store, ops: seq<Op>): Store
    decreases |ops|
  {
    if ops == [] then s else Run(Apply(s, ops[0]), ops[1..])
  }

  lemma ApplyValid(s: Store, op: Op)
    requires Valid(s)
    ensures Valid(Apply(s, op)) && Apply(s, op).nextGroup >= s.nextGroup
  {
    match op
    case OpCreateGroup(name, clear) =>
      if CreateGroup(s, name, clear).Ok? {
        CreateGroupValid(s, name, clear);
      }
    case OpDeleteGroup(id) =>
      if DeleteGroup(s, id).Ok? {
        DeleteGroupValid(s, id);
      }
    case OpDeleteGroupLegacy(id) =>
      if DeleteGroupLegacy(s, id).Ok? {
        DeleteGroupLegacyValid(s, id);
      }
    case OpClearGroup(id) => DropValid(s, InGroup(id));
    case OpRegister(events, patterns, kind, options, api) =>
      if Register(s, events, patterns, kind, options, api).Ok? {
        RegisterValid(s, events, patterns, kind, options, api);
      }
    case OpClear(filter) => DropValid(s, ByFilter(s, filter));
    case OpDeleteApiId(id) => DropValid(s, WithApiId(id));
    case OpDeleteEntry(id) => DropValid(s, WithId(id));
    case OpConsumeOnce(id) => DropValid(s, OnceWithId(id));
    case OpRemoveBuffer(buffer) => DropValid(s, LocalTo(buffer));
    case OpIgnore(event) =>
      var t := Apply(s, op);
      assert forall e :: e in t.entries ==> EntryOk(s, e) && EntryOk(t, e);
    case OpUnignore(event) =>
      var t := Apply(s, op);
      assert forall e :: e in t.entries ==> EntryOk(s, e) && EntryOk(t, e);
  }

  /** Every store reachable by any sequence of operations is valid, and the group counter
      never goes back. */
  lemma {:induction false} RunValid(s: Store, ops: seq<Op>)
    requires Valid(s)
    ensures Valid(Run(s, ops)) && Run(s, ops).nextGroup >= s.nextGroup
    decreases |ops|
  {
    if ops != [] {
      ApplyValid(s, ops[0]);
      RunValid(Apply(s, ops[0]), ops[1..]);
    }
  }

  lemma ReachableValid(ops: seq<Op>)
    ensures Valid(Run(NewStore(), ops))
  {
    NewValid();
    RunValid(NewStore(), ops);
  }

  /** Re-creating a legacy-deleted name, after whatever happened since, gives a group other
      than the gone one and leaves every gone definition outside it. */
  lemma RecreatedGroupIsNew(s: Store, gone: GroupId, ops: seq<Op>, clear: bool)
    requires Valid(s) && gone in s.groups && s.groups[gone].Live? && s.groups[gone].name != []
    requires s.groups[gone].name !in Run(DeleteGroupLegacy(s, gone).value, ops).names
    ensures var name, t := s.groups[gone].name, Run(DeleteGroupLegacy(s, gone).value, ops);
            && CreateGroup(t, name, clear).Ok?
            && var (u, id) := CreateGroup(t, name, clear).value;
               && id != gone && u.entries == t.entries
               && forall e :: e in u.entries ==> e.options.group != id
  {
    var t := DeleteGroupLegacy(s, gone).value;
    DeleteGroupLegacyValid(s, gone);
    RunValid(t, ops);
    FreshGroupIsEmpty(Run(t, ops), s.groups[gone].name, clear);
  }

  // ----- registration is all or nothing

  function NthEntry(s: Store, batch: Batch, pairs: seq<(Parsed, Event)>, i: nat): Entry
    requires i < |pairs|
  {
    NewEntry(s.(nextEntry := s.nextEntry + i, nextSequence := s.nextSequence + i), batch, pairs[i])
  }

  lemma {:induction false} CommitAppends(s: Store, batch: Batch, pairs: seq<(Parsed, Event)>)
    ensures Commit(s, batch, pairs)
         == s.(entries := s.entries + seq(|pairs|, i requires 0 <= i < |pairs| => NthEntry(s, batch, pairs, i)),
               nextEntry := s.nextEntry + |pairs|, nextSequence := s.nextSequence + |pairs|)
    decreases |pairs|
  {
    var added := seq(|pairs|, i requires 0 <= i < |pairs| => NthEntry(s, batch, pairs, i));
    if pairs == [] {
      assert s.entries + added == s.entries;
    } else {
      var u := AddEntry(s, batch, pairs[0]);
      CommitAppends(u, batch, pairs[1..]);
      var others := seq(|pairs| - 1, i requires 0 <= i < |pairs| - 1 => NthEntry(u, batch, pairs[1..], i));
      assert added == [NewEntry(s, batch, pairs[0])] + others;
      assert s.entries + added == u.entries + others;
    }
  }

  function NonEmptyParts(parts: seq<string>): nat {
    if parts == [] then 0 else (if parts[0] == [] then 0 else 1) + NonEmptyParts(parts[1..])
  }

  lemma {:induction false} ParseAllCounts(parts: seq<string>, fallback: Option<Buffer>)
    requires ParseAll(parts, fallback).Ok?
    ensures |ParseAll(parts, fallback).value| == NonEmptyParts(parts)
  {
    if parts != [] {
      ParseAllCounts(parts[1..], fallback);
    }
  }

  lemma {:induction false} RetainAll(entries: seq<Entry>, keep: Entry -> bool)
    requires forall e :: e in entries ==> keep(e)
    ensures Retain(entries, keep) == entries
  {
    if entries != [] {
      assert entries == [entries[0]] + entries[1..];
      RetainAll(entries[1..], keep);
    }
  }

  lemma {:induction false} RetainNone(entries: seq<Entry>, keep: Entry -> bool)
    requires forall e :: e in entries ==> !keep(e)
    ensures Retain(entries, keep) == []
  {
    if entries != [] {
      assert entries == [entries[0]] + entries[1..];
      RetainNone(entries[1..], keep);
    }
  }

  lemma {:induction false} RetainConcat(a: seq<Entry>, b: seq<Entry>, keep: Entry -> bool)
    ensures Retain(a + b, keep) == Retain(a, keep) + Retain(b, keep)
  {
    if a == [] {
      assert a + b == b;
    } else {
      assert (a + b)[1..] == a[1..] + b;
      RetainConcat(a[1..], b, keep);
      var front := if keep(a[0]) then [a[0]] else [];
      assert Retain(a + b, keep) == front + (Retain(a[1..], keep) + Retain(b, keep));
    }
  }

  /** What a registration by the API appends. */
  lemma RegisterApiAppends(s: Store, events: seq<Event>, patterns: string, kind: Kind, options: Options)
      returns (added: seq<Entry>)
    requires Register(s, events, patterns, kind, options, true).Ok?
    ensures Register(s, events, patterns, kind, options, true).value.entries == s.entries + added
    ensures Braces.Split(patterns).Ok? && |added| == NonEmptyParts(Braces.Split(patterns).value) * |events| > 0
    ensures forall i :: 0 <= i < |added| ==>
              added[i].apiId == Some(s.nextApi) && added[i].kind == kind && added[i].options == options
  {
    ParsedCount(s, patterns, options);
    var parsed := ParseRegistration(s, patterns, options).value;
    hide ParseRegistration;
    hide Braces.Split;
    var batch := Batch(kind, options, Some(s.nextApi));
    var pairs := Pairs(parsed, events);
    hide Pairs;
    hide Commit;
    var s' := s.(nextApi := s.nextApi + 1);
    CommitAppends(s', batch, pairs);
    PositiveProduct(|parsed|, |events|);
    added := seq(|pairs|, i requires 0 <= i < |pairs| => NthEntry(s', batch, pairs, i));
  }

  lemma NextApiIsNew(s: Store)
    requires Valid(s)
    ensures forall e :: e in s.entries ==> e.apiId != Some(s.nextApi)
  {
    forall e | e in s.entries
      ensures e.apiId != Some(s.nextApi)
    {
      assert EntryOk(s, e);
    }
  }

  /** A successful API registration appends exactly one definition per event and non-empty
      pattern under one fresh API id, and deleting that id at once restores the list. */
  lemma RegisterApiExact(s: Store, events: seq<Event>, patterns: string, kind: Kind, options: Options)
    requires Valid(s) && Register(s, events, patterns, kind, options, true).Ok?
    ensures var t := Register(s, events, patterns, kind, options, true).value;
            && Braces.Split(patterns).Ok?
            && |t.entries| == |s.entries| + NonEmptyParts(Braces.Split(patterns).value) * |events|
            && |t.entries| > |s.entries|
            && t.entries[..|s.entries|] == s.entries
            && (forall i :: |s.entries| <= i < |t.entries| ==>
                  && t.entries[i].apiId == Some(s.nextApi)
                  && t.entries[i].kind == kind && t.entries[i].options == options)
            && (forall e :: e in s.entries ==> e.apiId != Some(s.nextApi))
            && Drop(t, WithApiId(s.nextApi)).entries == s.entries
  {
    var added := RegisterApiAppends(s, events, patterns, kind, options);
    NextApiIsNew(s);
    hide Register;
    hide Valid;
    hide Braces.Split;
    hide Retain;
    var keep := Not(WithApiId(s.nextApi));
    assert forall e :: e in s.entries ==> keep(e);
    assert forall e :: e in added ==> !keep(e);
    DropAdded(s.entries, added, keep);
  }

  lemma ParsedCount(s: Store, patterns: string, options: Options)
    requires ParseRegistration(s, patterns, options).Ok?
    ensures Braces.Split(patterns).Ok?
    ensures |ParseRegistration(s, patterns, options).value| == NonEmptyParts(Braces.Split(patterns).value) > 0
  {
    var parts := Braces.Split(patterns).value;
    ParseAllCounts(parts, options.buffer);
    var part :| part in parts && part != [];
    SomePart(parts, part);
  }

  lemma DropAdded(entries: seq<Entry>, added: seq<Entry>, keep: Entry -> bool)
    requires forall e :: e in entries ==> keep(e)
    requires forall e :: e in added ==> !keep(e)
    ensures Retain(entries + added, keep) == entries
  {
    RetainConcat(entries, added, keep);
    RetainAll(entries, keep);
    RetainNone(added, keep);
  }

  lemma {:induction false} PairsAt(parsed: seq<Parsed>, events: seq<Event>, p: nat, e: nat)
    requires p < |parsed| && e < |events|
    ensures p * |events| + e < |Pairs(parsed, events)|
    ensures Pairs(parsed, events)[p * |events| + e] == (parsed[p], events[e])
  {
    if p > 0 {
      PairsAt(parsed[1..], events, p - 1, e);
      assert p * |events| + e == |events| + ((p - 1) * |events| + e);
    }
  }

  /** Which definition stands where: pattern by pattern, and event by event within each. */
  lemma RegisteredAt(s: Store, events: seq<Event>, patterns: string, kind: Kind, options: Options, api: bool,
                     parsed: seq<Parsed>, p: nat, e: nat, k: nat, t: Store)
    requires Register(s, events, patterns, kind, options, api) == Ok(t)
    requires ParseRegistration(s, patterns, options) == Ok(parsed)
    requires e < |events| && p < |parsed| && k == p * |events| + e
    ensures |s.entries| + k < |t.entries|
    ensures t.entries[|s.entries| + k]
         == Entry(s.nextEntry + k, if api then Some(s.nextApi) else None, s.nextSequence + k,
                  events[e], parsed[p].stored, parsed[p].source, kind, options)
  {
    hide ParseRegistration;
    PairsAt(parsed, events, p, e);
    var batch := Batch(kind, options, if api then Some(s.nextApi) else None);
    var pairs := Pairs(parsed, events);
    assert pairs[k] == (parsed[p], events[e]);
    hide Pairs;
    hide Commit;
    CommitAppends(if api then s.(nextApi := s.nextApi + 1) else s, batch, pairs);
  }

  lemma PositiveProduct(a: nat, b: nat)
    requires a > 0 && b > 0
    ensures a * b > 0
  {
  }

  lemma {:induction false} SomePart(parts: seq<string>, part: string)
    requires part in parts && part != []
    ensures NonEmptyParts(parts) > 0
  {
    if parts[0] != part {
      SomePart(parts[1..], part);
    }
  }

  /** A failed operation of any kind leaves the whole store as it was. */
  lemma ErrorsChangeNothing(s: Store, events: seq<Event>, patterns: string, kind: Kind, options: Options, api: bool)
    ensures Register(s, events, patterns, kind, options, api).Err? <==>
              || events == [] || !LiveGroup(s, options.group) || Braces.Split(patterns).Err?
              || (forall part :: part in Braces.Split(patterns).value ==> part == [])
              || exists part :: part in Braces.Split(patterns).value && part != []
                  && ParsePattern(part, options.buffer).Err?
    ensures Register(s, events, patterns, kind, options, api).Err? ==>
              Apply(s, OpRegister(events, patterns, kind, options, api)) == s
  {
    if Braces.Split(patterns).Ok? {
      ParseAllFails(Braces.Split(patterns).value, options.buffer);
    }
  }

  lemma {:induction false} ParseAllFails(parts: seq<string>, fallback: Option<Buffer>)
    ensures ParseAll(parts, fallback).Err?
            <==> exists part :: part in parts && part != [] && ParsePattern(part, fallback).Err?
  {
    if parts != [] {
      ParseAllFails(parts[1..], fallback);
      assert parts == [parts[0]] + parts[1..];
    }
  }

  // ----- removals conserve payloads

  lemma {:induction false} RemovalConserves(entries: seq<Entry>, doomed: Entry -> bool)
    ensures multiset(Kinds(entries))
         == multiset(Kinds(Retain(entries, Not(doomed)))) + multiset(Kinds(Retain(entries, doomed)))
  {
    if entries != [] {
      var e, rest := entries[0], entries[1..];
      var kept, gone := Retain(rest, Not(doomed)), Retain(rest, doomed);
      RemovalConserves(rest, doomed);
      RetainFront(e, rest, doomed);
      RetainFront(e, rest, Not(doomed));
      assert [e] + rest == entries && Not(doomed)(e) == !doomed(e);
      hide *;
      KindsFront(e, rest);
      KindsFront(e, gone);
      KindsFront(e, kept);
      Balance(multiset{e.kind}, multiset(Kinds(rest)), multiset(Kinds(kept)), multiset(Kinds(gone)));
    }
  }

  lemma RetainFront(e: Entry, rest: seq<Entry>, keep: Entry -> bool)
    ensures Retain([e] + rest, keep) == if keep(e) then [e] + Retain(rest, keep) else Retain(rest, keep)
  {
    assert ([e] + rest)[1..] == rest;
  }

  lemma Balance(k: multiset<Kind>, all: multiset<Kind>, kept: multiset<Kind>, gone: multiset<Kind>)
    requires all == kept + gone
    ensures k + all == (k + kept) + gone == kept + (k + gone)
  {
  }

  lemma KindsFront(e: Entry, rest: seq<Entry>)
    ensures multiset(Kinds([e] + rest)) == multiset{e.kind} + multiset(Kinds(rest))
  {
    assert Kinds([e] + rest) == [e.kind] + Kinds(rest);
  }

  /** Every remover hands back exactly the payloads that left the store. */
  lemma DropConserves(s: Store, doomed: Entry -> bool)
    ensures multiset(Kinds(s.entries)) == multiset(Kinds(Drop(s, doomed).entries)) + multiset(Dropped(s, doomed))
  {
    RemovalConserves(s.entries, doomed);
  }

  /** Clearing drops exactly what the same query listed, in order, and nothing that the
      query lists is left. */
  lemma ClearDropsWhatQueryLists(s: Store, f: Filter)
    ensures |Dropped(s, ByFilter(s, f))| == |Query(s, f)|
    ensures forall i :: 0 <= i < |Query(s, f)| ==> Dropped(s, ByFilter(s, f))[i] == Query(s, f)[i].kind
    ensures Query(Drop(s, ByFilter(s, f)), f) == []
  {
    var t := Drop(s, ByFilter(s, f));
    RetainKeeps(s.entries, Not(ByFilter(s, f)));
    RetainNone(t.entries, ByFilter(t, f));
  }

  /** What each operation takes out of a store, in the definition's own terms. */
  predicate Removes(s: Store, op: Op, e: Entry) {
    match op
    case OpCreateGroup(name, clear) => clear && name != "" && name in s.names && e.options.group == s.names[name]
    case OpDeleteGroup(id) => id in s.groups && e.options.group == id
    case OpClearGroup(id) => e.options.group == id && (id == 0 || (id in s.groups && s.groups[id] != Tombstoned))
    case OpClear(filter) => Selected(s, e, filter)
    case OpDeleteApiId(apiId) => e.apiId == Some(apiId)
    case OpDeleteEntry(id) => e.id == id
    case OpConsumeOnce(id) => e.id == id && e.options.once
    case OpRemoveBuffer(buffer) => e.pattern.BufferLocal? && e.pattern.handle == buffer
    case _ => false
  }

  /** No criterion that the filter gives excludes the definition; a group that is not live
      excludes all. */
  predicate Selected(s: Store, e: Entry, f: Filter) {
    match (f.group, f.events, f.patterns, f.buffers, f.apiId)
    case (group, events, patterns, buffers, apiId) =>
      && (group == None || group == Some(e.options.group))
      && !(group.Some? && group.value != 0 && (group.value !in s.groups || s.groups[group.value] == Tombstoned))
      && (events == None || e.event in events.value)
      && (patterns == None || e.source in patterns.value)
      && (buffers == None || exists buffer :: buffer in buffers.value && e.pattern == BufferLocal(buffer))
      && (apiId == None || e.apiId == Some(apiId.value))
  }

  lemma SelectedIs(s: Store, e: Entry, f: Filter)
    ensures MatchesFilter(s, e, f) <==> Selected(s, e, f)
  {
  }

  /** Of the definitions there before, exactly those go that the operation removes; and only a
      registration adds any. */
  lemma RemovesExactly(s: Store, op: Op)
    requires Valid(s)
    ensures forall e :: e in s.entries ==> (e in Apply(s, op).entries <==> !Removes(s, op, e))
    ensures !op.OpRegister? ==> forall e :: e in Apply(s, op).entries ==> e in s.entries
  {
    hide Selected;
    hide MatchesFilter;
    hide Register;
    hide Retain;
    match op
    case OpCreateGroup(name, clear) =>
      if name in s.names {
        RetainKeeps(s.entries, Not(InGroup(s.names[name])));
      }
    case OpDeleteGroup(id) => RetainKeeps(s.entries, Not(InGroup(id)));
    case OpDeleteGroupLegacy(id) =>
    case OpClearGroup(id) => RetainKeeps(s.entries, Not(InGroup(id)));
    case OpRegister(events, patterns, kind, options, api) => RegisterAppends(s, events, patterns, kind, options, api);
    case OpClear(filter) =>
      RetainKeeps(s.entries, Not(ByFilter(s, filter)));
      forall e | e in s.entries
        ensures MatchesFilter(s, e, filter) <==> Selected(s, e, filter)
      {
        SelectedIs(s, e, filter);
      }
    case OpDeleteApiId(id) => RetainKeeps(s.entries, Not(WithApiId(id)));
    case OpDeleteEntry(id) => RetainKeeps(s.entries, Not(WithId(id)));
    case OpConsumeOnce(id) => RetainKeeps(s.entries, Not(OnceWithId(id)));
    case OpRemoveBuffer(buffer) => RetainKeeps(s.entries, Not(LocalTo(buffer)));
    case OpIgnore(event) =>
    case OpUnignore(event) =>
  }

  lemma RegisterAppends(s: Store, events: seq<Event>, patterns: string, kind: Kind, options: Options, api: bool)
    ensures forall e :: e in s.entries ==> e in OrSame(s, Register(s, events, patterns, kind, options, api)).entries
  {
    var r := Register(s, events, patterns, kind, options, api);
    if r.Ok? {
      var batch := Batch(kind, options, if api then Some(s.nextApi) else None);
      var parsed := ParseRegistration(s, patterns, options).value;
      hide ParseRegistration;
      hide Commit;
      CommitAppends(if api then s.(nextApi := s.nextApi + 1) else s, batch, Pairs(parsed, events));
    }
  }

  /** A reported definition says what its entry says. */
  ghost predicate Reports(s: Store, d: Definition, e: Entry) {
    && d.id == e.id && d.apiId == e.apiId && d.event == e.event && d.pattern == e.source && d.kind == e.kind
    && d.group == e.options.group && d.once == e.options.once && d.nested == e.options.nested
    && (d.groupName.None? <==> d.group !in s.groups)
    && (forall name :: d.group in s.groups && s.groups[d.group] == Live(name) ==> d.groupName == Some(name))
    && (d.group in s.groups && s.groups[d.group].Tombstoned? ==> d.groupName == Some("--Deleted--"))
    && (forall h: Buffer :: d.buffer == Some(h) <==> e.pattern == BufferLocal(h))
  }

  lemma DefineReports(s: Store, e: Entry)
    ensures Reports(s, Define(s, e), e)
  {
  }

  /** A query reports each definition that its filter selects once, in registration order. */
  lemma QueryExact(s: Store, f: Filter)
    requires Valid(s)
    ensures var found := Query(s, f);
            && (forall i, j :: 0 <= i < j < |found| ==> found[i].id < found[j].id)
            && (forall d :: d in found ==> exists e :: e in s.entries && Selected(s, e, f) && Reports(s, d, e))
            && (forall e :: e in s.entries && Selected(s, e, f) ==> exists d :: d in found && Reports(s, d, e))
  {
    var keep := ByFilter(s, f);
    var kept, found := Retain(s.entries, keep), Query(s, f);
    RetainKeeps(s.entries, keep);
    RetainOrdered(s.entries, keep);
    forall e | e in s.entries
      ensures keep(e) <==> Selected(s, e, f)
    {
      SelectedIs(s, e, f);
    }
    hide Retain;
    hide Valid;
    hide Selected;
    hide MatchesFilter;
    forall i | 0 <= i < |kept|
      ensures Reports(s, found[i], kept[i]) && kept[i] in kept && found[i].id == kept[i].id
    {
      DefineReports(s, kept[i]);
      SameId(s, found[i], kept[i]);
    }
    hide Reports;
    hide Define;
    forall i, j | 0 <= i < j < |found|
      ensures found[i].id < found[j].id
    {
      assert Before(kept[i], kept[j]);
    }
    forall e | e in s.entries && Selected(s, e, f)
      ensures exists d :: d in found && Reports(s, d, e)
    {
      var i :| 0 <= i < |kept| && kept[i] == e;
      assert found[i] in found;
    }
  }

  lemma SameId(s: Store, d: Definition, e: Entry)
    requires Reports(s, d, e)
    ensures d.id == e.id
  {
  }

  // ----- plans

  lemma {:induction false} SortedAlready(entries: seq<Entry>)
    requires Ordered(entries)
    ensures SortBySequence(entries) == entries
  {
    if entries != [] {
      SortedAlready(entries[1..]);
      assert entries == [entries[0]] + entries[1..];
      if |entries| > 1 {
        assert Before(entries[0], entries[1]);
      }
    }
  }

  predicate InSequence(entries: seq<Entry>) {
    forall i, j :: 0 <= i < j < |entries| ==> entries[i].sequence <= entries[j].sequence
  }

  function WithSequence(n: nat): Entry -> bool {
    (e: Entry) => e.sequence == n
  }

  /** The sort on its own, of any list: ascending, with the same entries, those of one sequence
      number in the order they had. */
  lemma {:induction false} SortIsStable(entries: seq<Entry>)
    ensures var sorted := SortBySequence(entries);
            InSequence(sorted)
            && forall n: nat :: Retain(sorted, WithSequence(n)) == Retain(entries, WithSequence(n))
  {
    if entries != [] {
      var e, rest := entries[0], SortBySequence(entries[1..]);
      SortIsStable(entries[1..]);
      InsertIsSorted(e, rest);
      forall n: nat
        ensures Retain(Insert(e, rest), WithSequence(n)) == Retain(entries, WithSequence(n))
      {
        InsertIsStable(e, rest, n);
        RetainFront(e, rest, WithSequence(n));
        RetainFront(e, entries[1..], WithSequence(n));
        assert entries == [e] + entries[1..];
      }
      hide Insert;
      hide Retain;
    }
  }

  lemma {:induction false} InsertIsSorted(e: Entry, sorted: seq<Entry>)
    requires InSequence(sorted)
    ensures InSequence(Insert(e, sorted)) && forall f :: f in Insert(e, sorted) <==> f == e || f in sorted
  {
    if sorted != [] {
      var rest := Insert(e, sorted[1..]);
      assert InSequence(sorted[1..]);
      InsertIsSorted(e, sorted[1..]);
      assert sorted == [sorted[0]] + sorted[1..];
      assert forall f :: f in sorted[1..] ==> sorted[0].sequence <= f.sequence;
      InsertIs(e, sorted);
      hide Insert;
      if e.sequence <= sorted[0].sequence {
        FrontInSequence(e, sorted);
      } else {
        FrontInSequence(sorted[0], rest);
      }
    }
  }

  lemma InsertIs(e: Entry, sorted: seq<Entry>)
    requires sorted != []
    ensures Insert(e, sorted)
         == if e.sequence <= sorted[0].sequence then [e] + sorted else [sorted[0]] + Insert(e, sorted[1..])
  {
  }

  lemma FrontInSequence(e: Entry, rest: seq<Entry>)
    requires InSequence(rest) && forall f :: f in rest ==> e.sequence <= f.sequence
    ensures InSequence([e] + rest)
  {
    assert forall k :: 0 <= k < |rest| ==> rest[k] in rest;
  }

  lemma {:induction false} InsertIsStable(e: Entry, sorted: seq<Entry>, n: nat)
    requires InSequence(sorted)
    ensures Retain(Insert(e, sorted), WithSequence(n)) == Retain([e] + sorted, WithSequence(n))
  {
    if sorted != [] && e.sequence > sorted[0].sequence {
      var first, rest := sorted[0], sorted[1..];
      assert InSequence(rest) && sorted == [first] + rest;
      InsertIsStable(e, rest, n);
      RetainFront(first, Insert(e, rest), WithSequence(n));
      RetainFront(e, sorted, WithSequence(n));
      RetainFront(e, rest, WithSequence(n));
      RetainFront(first, rest, WithSequence(n));
      hide Retain;
    }
  }

  predicate Ascending(plan: seq<Action>) {
    forall i, j :: 0 <= i < j < |plan| ==> plan[i].id < plan[j].id
  }

  /** The action repeats what the entry it was made from says, with the group's name now: none
      for the default group and a deleted one, `--Deleted--` for a group deleted while its
      definitions stayed. The buffer is the event's, or else the one the pattern is local to. */
  ghost predicate Describes(s: Store, context: Context, a: Action, e: Entry) {
    && a.id == e.id && a.apiId == e.apiId && a.event == e.event && a.kind == e.kind && a.source == e.source
    && a.once == e.options.once && a.nested == e.options.nested && a.group == e.options.group
    && (a.groupName.None? <==> a.group !in s.groups)
    && (forall name :: a.group in s.groups && s.groups[a.group] == Live(name) ==> a.groupName == Some(name))
    && (a.group in s.groups && s.groups[a.group].Tombstoned? ==> a.groupName == Some("--Deleted--"))
    && (context.buffer.Some? ==> a.buffer == context.buffer)
    && (context.buffer.None? && e.pattern.BufferLocal? ==> a.buffer == Some(e.pattern.handle))
    && (context.buffer.None? && e.pattern.Glob? ==> a.buffer == None)
  }

  /** The event, in the group asked for if any, meets the definition: its pattern is local to
      the event's buffer, or one of its strings matches the name, or the name's last component
      if the string has no slash. */
  ghost predicate Meets(e: Entry, event: Event, group: Option<GroupId>, context: Context) {
    && e.event == event
    && (group == None || group == Some(e.options.group))
    && match e.pattern
       case BufferLocal(handle) => context.buffer == Some(handle)
       case Glob(strings) => exists p :: p in strings && StringMeets(p, NameOf(context))
  }

  ghost predicate StringMeets(p: string, full: string) {
    exists name :: Globs.Matches(Globs.GlobTokens(p), name)
      && if '/' in p then name == full else LastComponent(name, full)
  }

  function NameOf(context: Context): string {
    if context.name.Some? then context.name.value else ""
  }

  predicate LastComponent(part: string, name: string) {
    && '/' !in part && |part| <= |name| && name[|name| - |part|..] == part
    && (|part| < |name| ==> name[|name| - |part| - 1] == '/')
  }

  lemma {:induction false} LastComponentIs(name: string, part: string)
    ensures LastComponent(part, name) <==> part == Tail(name)
  {
    if '/' in name {
      LastComponentIs(name[1..], part);
      if LastComponent(part, name) && |part| < |name| {
        assert |part| < |name| - 1 || name[0] == '/';
        assert name[1..][|name| - 1 - |part|..] == part;
      }
      if LastComponent(part, name[1..]) {
        assert name[|name| - |part|..] == part;
      }
    } else {
      assert name[|name| - |name|..] == name;
      assert |part| < |name| ==> name[|name| - |part| - 1] in name;
    }
  }

  lemma FiresIfMeets(e: Entry, event: Event, group: Option<GroupId>, context: Context)
    ensures Fires(event, group, context)(e) <==> Meets(e, event, group, context)
  {
    var full := NameOf(context);
    forall p: string
      ensures Globs.Matches(Globs.GlobTokens(p), if '/' in p then full else Tail(full)) <==> StringMeets(p, full)
    {
      StringMeetsIs(p, full);
    }
    hide StringMeets;
    hide Globs.Matches;
  }

  lemma StringMeetsIs(p: string, full: string)
    ensures Globs.Matches(Globs.GlobTokens(p), if '/' in p then full else Tail(full)) <==> StringMeets(p, full)
  {
    LastComponentIs(full, Tail(full));
    forall name | LastComponent(name, full)
      ensures name == Tail(full)
    {
      LastComponentIs(full, name);
    }
    hide Globs.Matches;
  }

  /** An event's plan lists, in registration order, exactly the definitions that the event meets,
      and nothing for an ignored event or inside a handler that is not nested; sorting by
      sequence never reorders a valid store. */
  lemma PlanExact(s: Store, event: Event, group: Option<GroupId>, context: Context)
    requires Valid(s)
    ensures var plan := Plan(s, event, group, context);
            && Ascending(plan)
            && (event in s.ignored || !context.nested ==> plan == [])
            && (forall a :: a in plan ==>
                  exists e :: e in s.entries && Describes(s, context, a, e) && Meets(e, event, group, context))
            && (event !in s.ignored && context.nested ==>
                  forall e :: e in s.entries && Meets(e, event, group, context) ==>
                      exists a :: a in plan && Describes(s, context, a, e))
  {
    var fires := Fires(event, group, context);
    var matched := Retain(s.entries, fires);
    var plan := Plan(s, event, group, context);
    RetainKeeps(s.entries, fires);
    RetainOrdered(s.entries, fires);
    SortedAlready(matched);
    forall e | e in s.entries
      ensures fires(e) <==> Meets(e, event, group, context)
    {
      FiresIfMeets(e, event, group, context);
    }
    hide Fires;
    hide Meets;
    hide Retain;
    hide Valid;
    hide SortBySequence;
    if event !in s.ignored && context.nested {
      assert |plan| == |matched|;
      forall a | a in plan
        ensures exists e :: e in s.entries && Describes(s, context, a, e) && Meets(e, event, group, context)
      {
        var i :| 0 <= i < |plan| && plan[i] == a;
        ActionDescribes(s, context, matched[i]);
        assert matched[i] in s.entries;
      }
      forall e | e in s.entries && fires(e)
        ensures exists a :: a in plan && Describes(s, context, a, e)
      {
        var i :| 0 <= i < |matched| && matched[i] == e;
        ActionDescribes(s, context, e);
        assert plan[i] in plan;
      }
      forall i, j | 0 <= i < j < |plan|
        ensures plan[i].id < plan[j].id
      {
        assert Before(matched[i], matched[j]);
      }
    }
  }

  lemma ActionDescribes(s: Store, context: Context, e: Entry)
    ensures Describes(s, context, ActionOf(s, e, context), e)
  {
  }
}
