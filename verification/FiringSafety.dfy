/** What every run of nested firings keeps: reference ownership, slot borrowing, and who
    may execute.

    `Inv` has four parts. Every owned Lua reference is accounted for: used by a definition,
    queued for release, in flight in a live frame, or given up; the parameter `inflight` names
    those taken out of the store by frames that have not yet released them. The borrowed slots
    are those below the depth. The trace is in order, and each observation agrees with the
    store: what was removed or consumed is not in it. And every plan taken so far lists
    definitions in registration order and agrees with those still stored.

    `Later` relates a session to an earlier one at the same depth. Each lemma named after an
    operation with `Ok` shows that the operation keeps both; the last ones go by induction over
    the tree of host code. `FiringTheorems` and `FiringLeaks` draw the conclusions. */
module FiringSafety {
  import opened Wrappers
  import opened AutocmdStore
  import opened FiringModel

  // ----- the invariant, part by part

  predicate NoRepeats(references: seq<nat>) {
    forall i, j :: 0 <= i < j < |references| ==> references[i] != references[j]
  }

  /** Every pending or used reference is owned, and an owned reference is accounted for:
      used by a definition, pending, in flight in a live frame, or given up. */
  ghost predicate RefsOk(s: Session, inflight: set<nat>) {
    && NoRepeats(s.pending)
    && (forall r :: r in s.pending ==> r in s.owned)
    && (forall r :: UsesLuaCallback(s.store, r) ==> r in s.owned)
    && inflight <= s.owned
    && (forall r :: r in s.owned ==>
          UsesLuaCallback(s.store, r) || r in s.pending || r in inflight || r in s.discarded || r in s.unregistered)
  }

  /** The borrowed slots are exactly those below the depth. */
  ghost predicate SlotsOk(s: Session) {
    s.depth <= s.slots && forall i: nat :: i in s.borrowed <==> i < s.depth
  }

  /** What may be observed after a given past. */
  predicate Allowed(past: seq<Obs>, o: Obs) {
    o.Ran? ==>
      && Removed(o.id) !in past
      && (forall p :: p in past && p.Ran? && p.id == o.id ==> !p.once && !o.once)
      && (forall p :: p in past && p.Ran? && p.frame == o.frame ==> p.id < o.id)
      && (o.once ==> past != [] && past[|past| - 1] == Consumed(o.id))
  }

  predicate TraceOk(trace: seq<Obs>) {
    trace == [] || (TraceOk(trace[..|trace| - 1]) && Allowed(trace[..|trace| - 1], trace[|trace| - 1]))
  }

  /** An observation's entry id was issued; after a removal, a consumption or a one-shot
      run the entry is not in the store. */
  ghost predicate ObsOk(s: Session, o: Obs) {
    && o.id < s.store.nextEntry
    && (o.Ran? ==> o.frame < s.frames)
    && (o.Ran? ==> forall e :: e in s.store.entries && e.id == o.id ==> e.options.once == o.once)
    && (!o.Ran? || o.once ==> !LiveEntry(s.store, o.id))
  }

  /** A planned action agrees with its entry for as long as that entry is stored. */
  ghost predicate ActionOk(s: Session, a: Action) {
    && a.id < s.store.nextEntry
    && forall e :: e in s.store.entries && e.id == a.id ==> e.kind == a.kind && e.options.once == a.once
  }

  ghost predicate PlanOk(s: Session, plan: seq<Action>) {
    Ascending(plan) && forall a :: a in plan ==> ActionOk(s, a)
  }

  /** The trace is in order and the store agrees with it and with every plan taken. */
  ghost predicate History(s: Session) {
    && TraceOk(s.trace)
    && (forall o :: o in s.trace ==> ObsOk(s, o))
    && (forall plan :: plan in s.plans ==> PlanOk(s, plan))
  }

  ghost predicate Inv(s: Session, inflight: set<nat>) {
    && !s.fault
    && Valid(s.store)
    && RefsOk(s, inflight)
    && SlotsOk(s)
    && History(s)
  }

  /** No frame is live without its own removals being the only ones in flight. */
  predicate Outermost(s: Session, inflight: set<nat>) {
    s.depth == 0 ==> inflight == {}
  }

  /** How a later session relates to an earlier one at the same depth: nothing is
      resurrected, inside a frame nothing is freed, and executions are of new frames only. */
  ghost predicate Later(s: Session, t: Session, frame: nat) {
    && t.depth == s.depth && t.slots >= s.slots && t.refuses == s.refuses
    && t.store.nextEntry >= s.store.nextEntry && t.frames >= s.frames
    && (forall e :: e in t.store.entries && e.id < s.store.nextEntry ==> e in s.store.entries)
    && (s.depth > 0 ==> s.owned <= t.owned)
    && s.trace <= t.trace && s.plans <= t.plans
    && (forall o :: o in t.trace[|s.trace|..] && o.Ran? ==> o.frame >= frame)
  }

  /** At depth zero with a host, an empty queue is empty again afterwards. */
  predicate StaysDrained(s: Session, t: Session) {
    s.slots > 0 && s.pending == [] && s.depth == 0 ==> t.pending == []
  }

  lemma LaterTrans(s: Session, t: Session, u: Session, frame: nat)
    requires Later(s, t, frame) && Later(t, u, frame)
    ensures Later(s, u, frame)
  {
    assert u.trace[|s.trace|..] == t.trace[|s.trace|..] + u.trace[|t.trace|..];
  }

  lemma LaterFrame(s: Session, t: Session, frame: nat, earlier: nat)
    requires Later(s, t, frame) && earlier <= frame
    ensures Later(s, t, earlier)
  {
  }

  /** A planned action stays good whatever happens later. */
  lemma ActionStays(s: Session, t: Session, a: Action)
    requires ActionOk(s, a) && t.store.nextEntry >= s.store.nextEntry
    requires forall e :: e in t.store.entries && e.id < s.store.nextEntry ==> e in s.store.entries
    ensures ActionOk(t, a)
  {
  }

  lemma PlanStays(s: Session, t: Session, plan: seq<Action>)
    requires PlanOk(s, plan) && t.store.nextEntry >= s.store.nextEntry
    requires forall e :: e in t.store.entries && e.id < s.store.nextEntry ==> e in s.store.entries
    ensures PlanOk(t, plan)
  {
    forall a | a in plan
      ensures ActionOk(t, a)
    {
      ActionStays(s, t, a);
    }
  }

  lemma HistoryStays(s: Session, t: Session)
    requires History(s) && t.trace == s.trace && t.plans == s.plans
    requires t.frames >= s.frames && t.store.nextEntry >= s.store.nextEntry
    requires forall e :: e in t.store.entries && e.id < s.store.nextEntry ==> e in s.store.entries
    ensures History(t) && t.trace[|s.trace|..] == []
  {
    forall o | o in t.trace
      ensures ObsOk(t, o)
    {
      assert ObsOk(s, o);
    }
    forall plan | plan in t.plans
      ensures PlanOk(t, plan)
    {
      PlanStays(s, t, plan);
    }
  }

  // ----- traces

  lemma TraceGrows(trace: seq<Obs>, o: Obs)
    requires TraceOk(trace) && Allowed(trace, o)
    ensures TraceOk(trace + [o])
  {
    assert (trace + [o])[..|trace|] == trace;
  }

  lemma {:induction false} TraceGrowsQuietly(trace: seq<Obs>, more: seq<Obs>)
    requires TraceOk(trace) && forall i :: 0 <= i < |more| ==> !more[i].Ran?
    ensures TraceOk(trace + more)
    decreases |more|
  {
    if more == [] {
      assert trace + more == trace;
    } else {
      TraceGrows(trace, more[0]);
      assert trace + more == (trace + [more[0]]) + more[1..];
      TraceGrowsQuietly(trace + [more[0]], more[1..]);
    }
  }

  // ----- replacing the store

  /** The new store holds some of the old entries, and the rest are the removed ones. */
  ghost predicate Shrinks(a: Store, b: Store, gone: seq<Entry>) {
    && Valid(b) && b.nextEntry == a.nextEntry
    && (forall e :: e in b.entries ==> e in a.entries)
    && (forall e :: e in a.entries ==> e in b.entries || e in gone)
    && (forall e :: e in gone ==> e in a.entries && !LiveEntry(b, e.id))
  }

  lemma EntryIdsDiffer(entries: seq<Entry>, a: Entry, b: Entry)
    requires Ordered(entries) && a in entries && b in entries && a.id == b.id
    ensures a == b
  {
    var i :| 0 <= i < |entries| && entries[i] == a;
    var j :| 0 <= j < |entries| && entries[j] == b;
    assert i == j;
  }

  lemma DropShrinks(a: Store, doomed: Entry -> bool)
    requires Valid(a)
    ensures Shrinks(a, Drop(a, doomed), Retain(a.entries, doomed))
  {
    DropValid(a, doomed);
    RetainKeeps(a.entries, doomed);
    var b, gone := Drop(a, doomed), Retain(a.entries, doomed);
    forall e | e in gone
      ensures !LiveEntry(b, e.id)
    {
      forall f | f in b.entries && f.id == e.id
        ensures false
      {
        EntryIdsDiffer(a.entries, e, f);
      }
    }
  }

  lemma KindsIn(entries: seq<Entry>, e: Entry)
    requires e in entries
    ensures e.kind in Kinds(entries)
  {
    var i :| 0 <= i < |entries| && entries[i] == e;
    assert Kinds(entries)[i] == e.kind;
  }

  /** Each payload of a list belongs to an entry of the list. */
  lemma KindsFrom(entries: seq<Entry>, k: Kind)
    requires k in Kinds(entries)
    ensures exists e :: e in entries && e.kind == k
  {
    var i :| 0 <= i < |entries| && Kinds(entries)[i] == k;
    assert entries[i] in entries;
  }

  lemma ShrinkRefs(s: Session, store: Store, gone: seq<Entry>, inflight: set<nat>)
    requires RefsOk(s, inflight) && Shrinks(s.store, store, gone)
    ensures RefsOk(s.(store := store), inflight + LuaRefs(Kinds(gone)))
  {
    forall r | r in LuaRefs(Kinds(gone))
      ensures r in s.owned
    {
      KindsFrom(gone, LuaCallback(r));
      assert UsesLuaCallback(s.store, r);
    }
    forall r | UsesLuaCallback(s.store, r)
      ensures UsesLuaCallback(store, r) || r in LuaRefs(Kinds(gone))
    {
      var e :| e in s.store.entries && e.kind == LuaCallback(r);
      if e in gone {
        KindsIn(gone, e);
      }
    }
  }

  /** Taking entries out of the store: their references come into flight. */
  lemma ReplaceOk(s: Session, store: Store, gone: seq<Entry>, inflight: set<nat>)
    requires Inv(s, inflight) && Shrinks(s.store, store, gone)
    ensures Inv(Replace(s, store, gone), inflight + LuaRefs(Kinds(gone)))
    ensures Later(s, Replace(s, store, gone), s.frames)
  {
    var t := Replace(s, store, gone);
    ShrinkRefs(s, store, gone, inflight);
    TraceGrowsQuietly(s.trace, RemovedIds(gone));
    forall o | o in t.trace
      ensures ObsOk(t, o)
    {
      if o in s.trace {
        assert ObsOk(s, o);
      } else {
        var i :| 0 <= i < |gone| && o == Removed(gone[i].id);
        assert gone[i] in gone && EntryOk(s.store, gone[i]);
      }
    }
    forall plan | plan in t.plans
      ensures PlanOk(t, plan)
    {
      PlanStays(s, t, plan);
    }
    assert t.trace[|s.trace|..] == RemovedIds(gone);
  }

  /** Adding entries to the store whose references are owned. */
  lemma GrowOk(s: Session, store: Store, inflight: set<nat>)
    requires Inv(s, inflight) && Valid(store) && store.nextEntry >= s.store.nextEntry
    requires forall e :: e in s.store.entries ==> e in store.entries
    requires forall e :: e in store.entries && e !in s.store.entries ==> e.id >= s.store.nextEntry
    requires forall e :: e in store.entries && e !in s.store.entries && e.kind.LuaCallback? ==>
             e.kind.reference in s.owned
    ensures Inv(s.(store := store), inflight) && Later(s, s.(store := store), s.frames)
  {
    var t := s.(store := store);
    HistoryStays(s, t);
  }

  // ----- releases

  lemma {:induction false} CollectOk(references: seq<nat>, kinds: seq<Kind>)
    requires NoRepeats(references)
    ensures NoRepeats(Collect(references, kinds))
    ensures forall r :: r in Collect(references, kinds) <==> r in references || r in LuaRefs(kinds)
    decreases |kinds|
  {
    if kinds != [] {
      var next := if kinds[0].LuaCallback? then Enqueue(references, kinds[0].reference) else references;
      CollectOk(next, kinds[1..]);
      assert kinds == [kinds[0]] + kinds[1..];
    }
  }

  /** One free, with nothing else in flight at depth zero. */
  lemma ReleaseOneOk(s: Session, reference: nat, rest: set<nat>, inflight: set<nat>)
    requires Inv(s, inflight + rest + {reference}) && Outermost(s, inflight)
    requires reference !in rest && !UsesLuaCallback(s.store, reference)
    requires s.depth == 0 && s.slots > 0 ==> s.pending == []
    ensures var (t, ok) := ReleaseOne(s, reference);
            && Inv(t, inflight + rest) && Later(s, t, s.frames) && t.store == s.store
            && (t.depth == 0 && t.slots > 0 ==> t.pending == [])
            && (s.refuses == {} ==> ok && t.discarded == s.discarded) && t.unregistered == s.unregistered
  {
    var (t, ok) := ReleaseOne(s, reference);
    HistoryStays(s, t);
  }

  lemma GiveUpOk(s: Session, inflight: set<nat>, rest: set<nat>)
    requires Inv(s, inflight + rest)
    ensures Inv(s.(discarded := s.discarded + rest), inflight)
    ensures Later(s, s.(discarded := s.discarded + rest), s.frames)
  {
    var t := s.(discarded := s.discarded + rest);
    HistoryStays(s, t);
  }

  /** A used reference need not stay in flight. */
  lemma LandOk(s: Session, inflight: set<nat>, reference: nat)
    requires Inv(s, inflight + {reference}) && UsesLuaCallback(s.store, reference)
    ensures Inv(s, inflight)
  {
  }

  lemma {:induction false} ReleaseEachOk(s: Session, references: seq<nat>, inflight: set<nat>)
    requires Inv(s, inflight + Elements(references)) && Outermost(s, inflight) && NoRepeats(references)
    requires s.depth == 0 && s.slots > 0 ==> s.pending == []
    ensures var (t, ok) := ReleaseEach(s, references);
            && Inv(t, inflight) && Later(s, t, s.frames) && t.store == s.store
            && (t.depth == 0 && t.slots > 0 ==> t.pending == [])
            && (s.refuses == {} ==> ok && t.discarded == s.discarded) && t.unregistered == s.unregistered
    decreases |references|
  {
    if references == [] {
      assert inflight + Elements(references) == inflight;
      assert s.trace[|s.trace|..] == [];
    } else {
      var r, rest := references[0], references[1..];
      assert Elements(references) == Elements(rest) + {r} by {
        assert references == [r] + rest;
      }
      if UsesLuaCallback(s.store, r) {
        assert inflight + Elements(references) == (inflight + Elements(rest)) + {r};
        LandOk(s, inflight + Elements(rest), r);
        ReleaseEachOk(s, rest, inflight);
      } else {
        assert inflight + Elements(references) == inflight + Elements(rest) + {r};
        ReleaseOneOk(s, r, Elements(rest), inflight);
        var (t, ok) := ReleaseOne(s, r);
        if ok {
          ReleaseEachOk(t, rest, inflight);
          LaterTrans(s, t, ReleaseEach(t, rest).0, s.frames);
        } else {
          GiveUpOk(t, inflight, Elements(rest));
          LaterTrans(s, t, t.(discarded := t.discarded + Elements(rest)), s.frames);
        }
      }
    }
  }

  lemma ReleaseRemovedOk(s: Session, kinds: seq<Kind>, inflight: set<nat>)
    requires Inv(s, inflight + LuaRefs(kinds)) && Outermost(s, inflight)
    ensures var (t, ok) := ReleaseRemoved(s, kinds);
            && Inv(t, inflight) && Later(s, t, s.frames) && t.store == s.store
            && (t.depth == 0 && t.slots > 0 ==> t.pending == [])
            && (s.refuses == {} ==> ok && t.discarded == s.discarded) && t.unregistered == s.unregistered
  {
    var references := Collect(s.pending, kinds);
    CollectOk(s.pending, kinds);
    var u := s.(pending := []);
    var flying := inflight + Elements(references);
    assert RefsOk(u, flying);
    HistoryStays(s, u);
    assert Inv(u, flying);
    ReleaseEachOk(u, references, inflight);
  }

  // ----- single steps

  lemma StripOk(s: Session, doomed: Entry -> bool, inflight: set<nat>)
    requires Inv(s, inflight)
    ensures Inv(Strip(s, doomed), inflight + LuaRefs(Dropped(s.store, doomed)))
    ensures Later(s, Strip(s, doomed), s.frames)
  {
    DropShrinks(s.store, doomed);
    ReplaceOk(s, Drop(s.store, doomed), Retain(s.store.entries, doomed), inflight);
  }

  lemma StripAndReleaseOk(s: Session, doomed: Entry -> bool, inflight: set<nat>)
    requires Inv(s, inflight) && Outermost(s, inflight)
    ensures var t := StripAndRelease(s, doomed); Inv(t, inflight) && Later(s, t, s.frames) && StaysDrained(s, t)
  {
    StripOk(s, doomed, inflight);
    ReleaseRemovedOk(Strip(s, doomed), Dropped(s.store, doomed), inflight);
    LaterTrans(s, Strip(s, doomed), StripAndRelease(s, doomed), s.frames);
  }

  lemma StripAndDiscardOk(s: Session, doomed: Entry -> bool, inflight: set<nat>)
    requires Inv(s, inflight)
    ensures var t := StripAndDiscard(s, doomed); Inv(t, inflight) && Later(s, t, s.frames) && StaysDrained(s, t)
  {
    StripOk(s, doomed, inflight);
    GiveUpOk(Strip(s, doomed), inflight, LuaRefs(Dropped(s.store, doomed)));
    LaterTrans(s, Strip(s, doomed), StripAndDiscard(s, doomed), s.frames);
  }

  lemma DeleteGroupShrinks(a: Store, id: GroupId)
    requires Valid(a) && DeleteGroup(a, id).Ok?
    ensures Shrinks(a, DeleteGroup(a, id).value, Retain(a.entries, InGroup(id)))
  {
    DeleteGroupValid(a, id);
    DropShrinks(a, InGroup(id));
    assert DeleteGroup(a, id).value.entries == Drop(a, InGroup(id)).entries;
    var b := DeleteGroup(a, id).value;
    assert forall n :: LiveEntry(b, n) <==> LiveEntry(Drop(a, InGroup(id)), n);
  }

  lemma DeleteAugroupOk(s: Session, id: GroupId, inflight: set<nat>)
    requires Inv(s, inflight) && Outermost(s, inflight)
    ensures var t := DeleteAugroup(s, id); Inv(t, inflight) && Later(s, t, s.frames) && StaysDrained(s, t)
  {
    if id in s.store.groups && s.store.groups[id].Live? {
      var gone := Retain(s.store.entries, InGroup(id));
      var u := Replace(s, DeleteGroup(s.store, id).value, gone);
      DeleteGroupShrinks(s.store, id);
      ReplaceOk(s, DeleteGroup(s.store, id).value, gone, inflight);
      ReleaseRemovedOk(u, Kinds(gone), inflight);
      LaterTrans(s, u, DeleteAugroup(s, id), s.frames);
    } else {
      LaterSame(s);
    }
  }

  lemma LaterSame(s: Session)
    ensures Later(s, s, s.frames)
  {
    assert s.trace[|s.trace|..] == [];
  }

  lemma AugroupOk(s: Session, name: string, clear: bool, inflight: set<nat>)
    requires Inv(s, inflight)
    ensures var t := Augroup(s, name, clear); Inv(t, inflight) && Later(s, t, s.frames) && StaysDrained(s, t)
  {
    LaterSame(s);
    if name != [] && name in s.store.names {
      StripAndDiscardOk(s, InGroup(s.store.names[name]), inflight);
    } else if CreateGroup(s.store, name, clear).Ok? {
      CreateGroupValid(s.store, name, clear);
      GrowOk(s, CreateGroup(s.store, name, clear).value.0, inflight);
    }
  }

  lemma RegisterGrows(a: Store, events: seq<Event>, patterns: string, kind: Kind, options: Options, api: bool)
    requires Valid(a) && Register(a, events, patterns, kind, options, api).Ok?
    ensures var b := Register(a, events, patterns, kind, options, api).value;
            && Valid(b) && b.nextEntry >= a.nextEntry
            && (forall e :: e in a.entries ==> e in b.entries)
            && (forall e :: e in b.entries && e !in a.entries ==> e.id >= a.nextEntry && e.kind == kind)
            && exists e :: e in b.entries && e.kind == kind
  {
    RegisterValid(a, events, patterns, kind, options, api);
    ParsedCount(a, patterns, options);
    var parsed := ParseRegistration(a, patterns, options).value;
    hide ParseRegistration;
    var a' := if api then a.(nextApi := a.nextApi + 1) else a;
    var batch := Batch(kind, options, if api then Some(a.nextApi) else None);
    var pairs := Pairs(parsed, events);
    CommitAppends(a', batch, pairs);
    PositiveProduct(|parsed|, |events|);
    var added := seq(|pairs|, i requires 0 <= i < |pairs| => NthEntry(a', batch, pairs, i));
    assert added[0] in a.entries + added && added[0].kind == kind;
  }

  lemma AcquireOk(s: Session, payload: Payload, inflight: set<nat>)
    requires Inv(s, inflight)
    ensures var (t, kind) := Acquire(s, payload);
            && Inv(t, inflight + LuaRefs([kind])) && Later(s, t, s.frames) && StaysDrained(s, t) && t.store == s.store
            && LuaRefs([kind]) <= t.owned
  {
    var (t, kind) := Acquire(s, payload);
    assert LuaRefs([kind]) == if kind.LuaCallback? then {kind.reference} else {};
    HistoryStays(s, t);
    assert RefsOk(t, inflight + LuaRefs([kind]));
  }

  lemma CreateOk(s: Session, events: seq<Event>, patterns: string, payload: Payload, options: Options,
                 inflight: set<nat>)
    requires Inv(s, inflight)
    ensures var t := CreateAutocmd(s, events, patterns, payload, options);
            Inv(t, inflight) && Later(s, t, s.frames) && StaysDrained(s, t)
  {
    var (u, kind) := Acquire(s, payload);
    AcquireOk(s, payload, inflight);
    var flying := inflight + LuaRefs([kind]);
    assert LuaRefs([kind]) == if kind.LuaCallback? then {kind.reference} else {};
    var t := CreateAutocmd(s, events, patterns, payload, options);
    var r := Register(u.store, events, patterns, kind, options, true);
    hide Register;
    if r.Ok? {
      RegisterGrows(u.store, events, patterns, kind, options, true);
      GrowOk(u, r.value, flying);
      LaterTrans(s, u, t, s.frames);
      if kind.LuaCallback? {
        LandOk(t, inflight, kind.reference);
      } else {
        assert flying == inflight;
      }
    } else {
      UnregisteredOk(u, inflight, LuaRefs([kind]));
      LaterTrans(s, u, t, s.frames);
    }
  }

  lemma CreateLegacyOk(s: Session, events: seq<Event>, patterns: string, command: string, options: Options,
                       inflight: set<nat>)
    requires Inv(s, inflight)
    ensures var r := Register(s.store, events, patterns, ExString(command), options, false);
            var t := s.(store := OrSame(s.store, r));
            Inv(t, inflight) && Later(s, t, s.frames)
  {
    LaterSame(s);
    var r := Register(s.store, events, patterns, ExString(command), options, false);
    hide Register;
    if r.Ok? {
      RegisterGrows(s.store, events, patterns, ExString(command), options, false);
      GrowOk(s, r.value, inflight);
    }
  }

  lemma DelGroupLegacyOk(s: Session, id: GroupId, inflight: set<nat>)
    requires Inv(s, inflight)
    ensures var t := s.(store := OrSame(s.store, DeleteGroupLegacy(s.store, id)));
            Inv(t, inflight) && Later(s, t, s.frames)
  {
    LaterSame(s);
    if DeleteGroupLegacy(s.store, id).Ok? {
      DeleteGroupLegacyValid(s.store, id);
      GrowOk(s, DeleteGroupLegacy(s.store, id).value, inflight);
    }
  }

  lemma UnregisteredOk(s: Session, inflight: set<nat>, rest: set<nat>)
    requires Inv(s, inflight + rest)
    ensures Inv(s.(unregistered := s.unregistered + rest), inflight)
    ensures Later(s, s.(unregistered := s.unregistered + rest), s.frames)
  {
    var t := s.(unregistered := s.unregistered + rest);
    HistoryStays(s, t);
  }

  lemma DescribedOk(s: Session, context: Context, a: Action, e: Entry)
    requires Valid(s.store) && e in s.store.entries && Describes(s.store, context, a, e)
    ensures ActionOk(s, a)
  {
    assert EntryOk(s.store, e);
    forall f | f in s.store.entries && f.id == a.id
      ensures f == e
    {
      EntryIdsDiffer(s.store.entries, e, f);
    }
  }

  /** A fresh plan lists stored entries in registration order. */
  lemma PlanIsOk(s: Session, event: Event, within: Option<GroupId>, context: Context)
    requires Valid(s.store)
    ensures PlanOk(s, Plan(s.store, event, within, context))
  {
    hide Plan;
    hide ActionOk;
    hide Meets;
    var plan := Plan(s.store, event, within, context);
    PlanExact(s.store, event, within, context);
    hide Valid;
    forall a | a in plan
      ensures ActionOk(s, a)
    {
      var e :| e in s.store.entries && Describes(s.store, context, a, e);
      hide Describes;
      DescribedOk(s, context, a, e);
    }
  }

  lemma SnapshotOk(s: Session, event: Event, within: Option<GroupId>, context: Context, inflight: set<nat>)
    requires Inv(s, inflight)
    ensures var t := s.(plans := s.plans + [Plan(s.store, event, within, context)]);
            Inv(t, inflight) && Later(s, t, s.frames) && StaysDrained(s, t)
  {
    var plan := Plan(s.store, event, within, context);
    PlanIsOk(s, event, within, context);
    hide Plan;
    var t := s.(plans := s.plans + [plan]);
    LaterSame(s);
    forall o | o in t.trace
      ensures ObsOk(t, o)
    {
      assert ObsOk(s, o);
    }
    forall p | p in t.plans
      ensures PlanOk(t, p)
    {
      PlanStays(s, t, p);
    }
  }

  // ----- frames

  predicate Below(trace: seq<Obs>, frame: nat, id: nat) {
    forall p :: p in trace && p.Ran? && p.frame == frame ==> p.id < id
  }

  lemma BelowStays(s: Session, t: Session, frame: nat, id: nat, from: nat)
    requires Below(s.trace, frame, id) && Later(s, t, from) && frame < from
    ensures Below(t.trace, frame, id)
  {
    assert t.trace == s.trace + t.trace[|s.trace|..];
  }

  /** What must hold for an action to run now: it is stored, or was consumed just now. */
  ghost predicate MayRun(s: Session, a: Action, frame: nat) {
    && Allowed(s.trace, Ran(a.id, a.once, frame))
    && a.id < s.store.nextEntry && frame < s.frames
    && (a.once ==> !LiveEntry(s.store, a.id))
    && (forall e :: e in s.store.entries && e.id == a.id ==> e.options.once == a.once)
    && (a.kind.LuaCallback? ==> a.kind.reference in s.owned)
  }

  lemma LiveMayRun(s: Session, a: Action, frame: nat, inflight: set<nat>)
    requires Inv(s, inflight) && ActionOk(s, a) && LiveEntry(s.store, a.id) && !a.once
    requires frame < s.frames && Below(s.trace, frame, a.id)
    ensures MayRun(s, a, frame)
  {
    var e :| e in s.store.entries && e.id == a.id;
    assert a.kind.LuaCallback? ==> UsesLuaCallback(s.store, a.kind.reference);
    forall p | p in s.trace
      ensures p != Removed(a.id) && (p.Ran? && p.id == a.id ==> !p.once)
    {
      assert ObsOk(s, p);
    }
  }

  lemma ConsumeShrinks(s: Session, a: Action, inflight: set<nat>)
    requires Inv(s, inflight) && ActionOk(s, a) && a.once
    ensures var (t, removed) := Consume(s, a);
            Inv(t, inflight + LuaRefs(removed)) && Later(s, t, s.frames) && !LiveEntry(t.store, a.id)
  {
    var doomed := OnceWithId(a.id);
    DropsOne(s.store, doomed, a.id);
    var (t, removed) := Consume(s, a);
    var store, gone := Drop(s.store, doomed), Retain(s.store.entries, doomed);
    DropShrinks(s.store, doomed);
    RetainKeeps(s.store.entries, Not(doomed));
    ShrinkRefs(s, store, gone, inflight);
    TraceGrows(s.trace, Consumed(a.id));
    forall o | o in t.trace
      ensures ObsOk(t, o)
    {
      if o in s.trace {
        assert ObsOk(s, o);
      }
    }
    forall plan | plan in t.plans
      ensures PlanOk(t, plan)
    {
      PlanStays(s, t, plan);
    }
    assert t.trace[|s.trace|..] == [Consumed(a.id)];
  }

  lemma ConsumeOk(s: Session, a: Action, frame: nat, inflight: set<nat>)
    requires Inv(s, inflight) && ActionOk(s, a) && LiveEntry(s.store, a.id)
    requires frame < s.frames && Below(s.trace, frame, a.id)
    ensures var (t, removed) := Consume(s, a);
            && Inv(t, inflight + LuaRefs(removed)) && Later(s, t, s.frames) && MayRun(t, a, frame)
            && s.owned == t.owned && t.pending == s.pending && Below(t.trace, frame, a.id)
  {
    var (t, removed) := Consume(s, a);
    if a.once {
      ConsumeShrinks(s, a, inflight);
      var e :| e in s.store.entries && e.id == a.id;
      assert a.kind.LuaCallback? ==> UsesLuaCallback(s.store, a.kind.reference);
      forall p | p in s.trace
        ensures p != Removed(a.id) && (p.Ran? ==> p.id != a.id)
      {
        assert ObsOk(s, p);
      }
    } else {
      LaterSame(s);
      assert LuaRefs([]) == {} && inflight + {} == inflight;
      LiveMayRun(s, a, frame, inflight);
    }
  }

  lemma EnterOk(s: Session, a: Action, frame: nat, inflight: set<nat>)
    requires Inv(s, inflight) && MayRun(s, a, frame) && s.depth < s.slots
    ensures Inv(Enter(s, a, frame), inflight)
  {
    var t := Enter(s, a, frame);
    var o := Ran(a.id, a.once, frame);
    TraceGrows(s.trace, o);
    forall p | p in t.trace
      ensures ObsOk(t, p)
    {
      if p in s.trace {
        assert ObsOk(s, p);
      }
    }
    forall plan | plan in t.plans
      ensures PlanOk(t, plan)
    {
      PlanStays(s, t, plan);
    }
  }

  lemma LeaveOk(s: Session, inflight: set<nat>)
    requires Inv(s, inflight) && s.depth > 0
    ensures Inv(Leave(s), inflight) && Leave(s).depth == s.depth - 1
  {
    var t := Leave(s);
    HistoryStays(s, t);
  }

  lemma GrowSlotsOk(s: Session, forks: bool, inflight: set<nat>)
    requires Inv(s, inflight)
    ensures Inv(Grow(s, forks), inflight) && Later(s, Grow(s, forks), s.frames)
  {
    var t := Grow(s, forks);
    HistoryStays(s, t);
  }

  /** Leaving after nested steps: the frame as a whole is a later session. */
  lemma FrameLater(s: Session, a: Action, frame: nat, u: Session)
    requires frame < s.frames && s.depth < s.slots && Below(s.trace, frame, a.id)
    requires Later(Enter(s, a, frame), u, s.frames)
    ensures Later(s, Leave(u), frame) && s.owned <= u.owned && Below(Leave(u).trace, frame, a.id + 1)
  {
    var inside := Enter(s, a, frame);
    assert u.trace[|s.trace|..] == [Ran(a.id, a.once, frame)] + u.trace[|inside.trace|..];
    assert u.trace == s.trace + u.trace[|s.trace|..];
  }

  // ----- the induction over host code

  lemma {:induction false} WithExecutorOk(s: Session, a: Action, runs: Runs, frame: nat, inflight: set<nat>)
    requires Inv(s, inflight) && MayRun(s, a, frame) && Below(s.trace, frame, a.id)
    ensures var (t, outcome) := WithExecutor(s, a, runs, frame);
            && Inv(t, inflight) && Later(s, t, frame) && s.owned <= t.owned && Below(t.trace, frame, a.id + 1)
    decreases runs, 0
  {
    var forks := runs.Visit? && runs.forks;
    var s' := Grow(s, forks);
    GrowSlotsOk(s, forks, inflight);
    LaterFrame(s, s', s.frames, frame);
    if s'.depth < s'.slots {
      var inside := Enter(s', a, frame);
      EnterOk(s', a, frame, inflight);
      hide Inv;
      hide MayRun;
      var u := inside;
      if runs.Visit? {
        RunStepsOk(inside, runs.body, inflight);
        u := RunSteps(inside, runs.body);
      } else {
        LaterSame(inside);
      }
      LeaveOk(u, inflight);
      FrameLater(s', a, frame, u);
      LaterTrans(s, s', Leave(u), frame);
    }
  }

  lemma SettleOk(s: Session, a: Action, outcome: Outcome, removed: seq<Kind>, inflight: set<nat>)
    requires Inv(s, inflight + LuaRefs(removed)) && Outermost(s, inflight)
    ensures var (t, ok) := Settle(s, a, outcome, removed);
            && Inv(t, inflight) && Later(s, t, s.frames)
            && (t.depth == 0 && t.slots > 0 ==> t.pending == [])
  {
    if outcome == Delete {
      var more := Dropped(s.store, WithId(a.id));
      DropsOne(s.store, WithId(a.id), a.id);
      StripOk(s, WithId(a.id), inflight + LuaRefs(removed));
      assert inflight + LuaRefs(removed) + LuaRefs(more) == inflight + LuaRefs(removed + more);
      ReleaseRemovedOk(Strip(s, WithId(a.id)), removed + more, inflight);
      LaterTrans(s, Strip(s, WithId(a.id)), Settle(s, a, outcome, removed).0, s.frames);
    } else {
      ReleaseRemovedOk(s, removed, inflight);
    }
  }

  /** One stored action of a plan: consumed if one-shot, run, settled. */
  lemma {:induction false} ActionRunsOk(s: Session, a: Action, runs: Runs, frame: nat, inflight: set<nat>)
    requires Inv(s, inflight) && Outermost(s, inflight) && ActionOk(s, a) && LiveEntry(s.store, a.id)
    requires frame < s.frames && Below(s.trace, frame, a.id)
    ensures var (s1, removed) := Consume(s, a);
            var (s2, outcome) := WithExecutor(s1, a, runs, frame);
            var t := Settle(s2, a, outcome, removed).0;
            && Inv(t, inflight) && Later(s, t, frame) && Below(t.trace, frame, a.id + 1)
            && (t.depth == 0 && t.slots > 0 ==> t.pending == [])
    decreases runs, 1
  {
    var (s1, removed) := Consume(s, a);
    ConsumeOk(s, a, frame, inflight);
    var (s2, outcome) := WithExecutor(s1, a, runs, frame);
    WithExecutorOk(s1, a, runs, frame, inflight + LuaRefs(removed));
    assert Outermost(s2, inflight);
    hide Consume;
    hide WithExecutor;
    hide Inv;
    SettleOk(s2, a, outcome, removed, inflight);
    ActionLater(s, s1, s2, Settle(s2, a, outcome, removed).0, frame);
    BelowStays(s2, Settle(s2, a, outcome, removed).0, frame, a.id + 1, s2.frames);
  }

  lemma {:induction false} ExecutePlanOk(s: Session, plan: seq<Action>, runs: Runs, frame: nat, inflight: set<nat>)
    requires Inv(s, inflight) && Outermost(s, inflight) && PlanOk(s, plan) && frame < s.frames
    requires plan != [] ==> Below(s.trace, frame, plan[0].id)
    ensures var (t, ok) := ExecutePlan(s, plan, runs, frame);
            Inv(t, inflight) && Later(s, t, frame) && StaysDrained(s, t)
    decreases runs, 2, |plan|
  {
    hide Inv;
    LaterSame(s);
    LaterFrame(s, s, s.frames, frame);
    if plan != [] {
      var a, others := plan[0], plan[1..];
      assert forall b :: b in others ==> b in plan;
      assert others != [] ==> a.id < others[0].id;
      if !LiveEntry(s.store, a.id) {
        ExecutePlanOk(s, others, runs, frame, inflight);
      } else {
        var (s1, removed) := Consume(s, a);
        var (s2, outcome) := WithExecutor(s1, a, runs, frame);
        var (s3, cleaned) := Settle(s2, a, outcome, removed);
        ActionRunsOk(s, a, runs, frame, inflight);
        hide Consume;
        hide WithExecutor;
        hide Settle;
        if outcome != Fail && cleaned {
          PlanStays(s, s3, others);
          ExecutePlanOk(s3, others, Next(runs), frame, inflight);
          LaterTrans(s, s3, ExecutePlan(s3, others, Next(runs), frame).0, frame);
        }
      }
    }
  }

  lemma ActionLater(s: Session, s1: Session, s2: Session, s3: Session, frame: nat)
    requires Later(s, s1, s.frames) && Later(s1, s2, frame) && Later(s2, s3, s2.frames) && frame < s.frames
    ensures Later(s, s3, frame)
  {
    LaterFrame(s, s1, s.frames, frame);
    LaterTrans(s, s1, s2, frame);
    LaterFrame(s2, s3, s2.frames, frame);
    LaterTrans(s, s2, s3, frame);
  }

  lemma {:induction false} RunStepOk(s: Session, step: Step, inflight: set<nat>)
    requires Inv(s, inflight) && Outermost(s, inflight)
    ensures var t := RunStep(s, step); Inv(t, inflight) && Later(s, t, s.frames) && StaysDrained(s, t)
    decreases step, 0
  {
    LaterSame(s);
    hide Inv;
    hide Later;
    match step
    case Create(events, patterns, payload, options) => CreateOk(s, events, patterns, payload, options, inflight);
    case CreateLegacy(events, patterns, command, options) =>
      CreateLegacyOk(s, events, patterns, command, options, inflight);
    case DelAutocmd(apiId) => StripAndReleaseOk(s, WithApiId(apiId), inflight);
    case DelGroup(id) => DeleteAugroupOk(s, id, inflight);
    case DelGroupNamed(name) =>
      if name in s.store.names {
        DeleteAugroupOk(s, s.store.names[name], inflight);
      }
    case ClearAutocmds(filter) => StripAndReleaseOk(s, ByFilter(s.store, filter), inflight);
    case CreateAugroup(name, clear) => AugroupOk(s, name, clear, inflight);
    case DelGroupLegacy(id) =>
      DelGroupLegacyOk(s, id, inflight);
    case WipeBuffer(buffer) => StripAndDiscardOk(s, LocalTo(buffer), inflight);
    case Snapshot(event, within, context) => SnapshotOk(s, event, within, context, inflight);
    case Execute(k, runs) =>
      if k < |s.plans| {
        ExecuteOk(s, k, runs, inflight);
      }
  }

  /** A new frame's number is on no earlier execution. */
  lemma FrameOpens(s: Session, k: nat, inflight: set<nat>)
    requires Inv(s, inflight) && k < |s.plans|
    ensures var u := s.(frames := s.frames + 1);
            && Inv(u, inflight) && Later(s, u, s.frames) && PlanOk(u, s.plans[k])
            && forall o :: o in u.trace && o.Ran? ==> o.frame < s.frames
  {
    var u := s.(frames := s.frames + 1);
    HistoryStays(s, u);
    assert s.plans[k] in u.plans;
    forall o | o in u.trace && o.Ran?
      ensures o.frame < s.frames
    {
      assert ObsOk(s, o);
    }
  }

  lemma {:induction false} ExecuteOk(s: Session, k: nat, runs: Runs, inflight: set<nat>)
    requires Inv(s, inflight) && Outermost(s, inflight) && k < |s.plans|
    ensures var t := ExecutePlan(s.(frames := s.frames + 1), s.plans[k], runs, s.frames).0;
            Inv(t, inflight) && Later(s, t, s.frames) && StaysDrained(s, t)
    decreases runs, 3
  {
    hide Inv;
    var u := s.(frames := s.frames + 1);
    FrameOpens(s, k, inflight);
    ExecutePlanOk(u, s.plans[k], runs, s.frames, inflight);
    hide ExecutePlan;
    LaterTrans(s, u, ExecutePlan(u, s.plans[k], runs, s.frames).0, s.frames);
  }

  lemma {:induction false} RunStepsOk(s: Session, steps: Steps, inflight: set<nat>)
    requires Inv(s, inflight) && Outermost(s, inflight)
    ensures var t := RunSteps(s, steps); Inv(t, inflight) && Later(s, t, s.frames) && StaysDrained(s, t)
    decreases steps, 0
  {
    match steps
    case Done => LaterSame(s);
    case Then(step, rest) =>
      var t := RunStep(s, step);
      RunStepOk(s, step, inflight);
      RunStepsOk(t, rest, inflight);
      LaterFrame(t, RunSteps(t, rest), t.frames, s.frames);
      LaterTrans(s, t, RunSteps(t, rest), s.frames);
  }
}
