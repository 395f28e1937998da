/** Short histories that show each leak, and a queue that outlives an install. */
module FiringExamples {
  import opened Wrappers
  import opened AutocmdPatterns
  import opened AutocmdStore
  import opened FiringModel
  import opened FiringSafety
  import opened FiringTheorems
  import opened LeaksPersist
  import opened FiringLeaks
  import Braces

  // ----- one callback, local to buffer 1, in the group that is always there

  const PATTERN := "<buffer>"

  const MINE := Options(1, Some(1), false, false)

  const CREATE: Step := Create([0], PATTERN, Callback(7), MINE)

  function One(step: Step): Turn {
    Calls(Then(step, Done))
  }

  function Registered(): Store {
    NewStore().(nextApi := 2, nextEntry := 2, nextSequence := 2,
                entries := [Entry(1, Some(1), 1, 0, BufferLocal(1), Canonical(1), LuaCallback(7), MINE)])
  }

  lemma {:induction false} PlainPasses(rest: string, current: string)
    requires forall i :: 0 <= i < |rest| ==> Braces.Ordinary(rest[i])
    ensures Braces.SplitFrom(rest, current, 0, false) == Ok([current + rest])
  {
    if rest == [] {
      assert current + rest == current;
    } else {
      assert Braces.Ordinary(rest[0]);
      PlainPasses(rest[1..], current + [rest[0]]);
      assert current + [rest[0]] + rest[1..] == current + rest;
    }
  }

  lemma PatternIsOne()
    ensures ParseRegistration(NewStore(), PATTERN, MINE) == Ok([Parsed(BufferLocal(1), Canonical(1))])
  {
    PlainPasses(PATTERN, []);
    assert [] + PATTERN == PATTERN && [PATTERN][1..] == [];
    var parsed := Parsed(BufferLocal(1), Canonical(1));
    assert ParsePattern(PATTERN, Some(1)) == Ok(parsed);
    assert [parsed] + [] == [parsed];
    assert ParseAll([PATTERN], Some(1)) == Ok([parsed]);
    assert PATTERN in [PATTERN] && PATTERN != [];
  }

  lemma RegisterOne()
    ensures Register(NewStore(), [0], PATTERN, LuaCallback(7), MINE, true) == Ok(Registered())
  {
    PatternIsOne();
    hide ParseRegistration;
    var parsed := [Parsed(BufferLocal(1), Canonical(1))];
    assert Pairs(parsed, [0]) == [(parsed[0], 0)];
    var batch := Batch(LuaCallback(7), MINE, Some(1));
    var s := NewStore().(nextApi := 2);
    assert AddEntry(s, batch, (parsed[0], 0)).entries == Registered().entries;
    assert Commit(s, batch, [(parsed[0], 0)]) == Commit(AddEntry(s, batch, (parsed[0], 0)), batch, []);
  }

  /** The session after one creation, with hosts (`slots` is 2) or without. */
  function Created(slots: nat): Session {
    NewSession({}).(slots := slots, store := Registered(), owned := {7})
  }

  lemma CreateMakes(s: Session)
    requires s == NewSession({}).(slots := s.slots)
    ensures TakeTurn(s, One(CREATE)) == Created(s.slots)
  {
    RegisterOne();
    assert FreshId({}, 7) == 7 && {} + {7} == {7};
  }

  lemma CreatedIsReached(slots: nat)
    requires slots == 0 || slots == 2
    ensures var before := if slots == 0 then [] else [Install];
            && Inv(Created(slots), {}) && TakeTurns(NewSession({}), before + [One(CREATE)]) == Created(slots)
  {
    var before := if slots == 0 then [] else [Install];
    var s := NewSession({}).(slots := slots);
    TurnsConcat(NewSession({}), before, [One(CREATE)]);
    assert TakeTurns(NewSession({}), before) == s;
    CreateMakes(s);
    assert [One(CREATE)][1..] == [];
    NewSessionOk({});
    TurnsOk(NewSession({}), before + [One(CREATE)]);
  }

  lemma OnlyThere(doomed: Entry -> bool)
    requires doomed(Registered().entries[0])
    ensures OnlyUsedBy(Registered(), doomed, 7)
  {
    var e := Registered().entries[0];
    assert e in Registered().entries && e.kind == LuaCallback(7);
  }

  // ----- the histories

  /** Created, then its group re-created with `clear`: leaked, and for ever. */
  lemma ClearLeaksInHistory(more: seq<Turn>)
    ensures Leaked(TakeTurns(NewSession({}), [Install, One(CREATE), One(CreateAugroup(POPUPMENU, true))] + more), {}, 7)
  {
    var step := CreateAugroup(POPUPMENU, true);
    CreatedIsReached(2);
    OnlyThere(InGroup(1));
    ClearLeaks(Created(2), POPUPMENU, {}, 7, Done);
    LeaksInHistory(step, more);
  }

  /** Created, then its buffer wiped: leaked, and for ever. */
  lemma WipeLeaksInHistory(more: seq<Turn>)
    ensures Leaked(TakeTurns(NewSession({}), [Install, One(CREATE), One(WipeBuffer(1))] + more), {}, 7)
  {
    CreatedIsReached(2);
    OnlyThere(LocalTo(1));
    WipeLeaks(Created(2), 1, {}, 7, Done);
    LeaksInHistory(WipeBuffer(1), more);
  }

  lemma ThreeTurns(step: Step, more: seq<Turn>)
    ensures TakeTurns(NewSession({}), [Install, One(CREATE), One(step)] + more)
         == TakeTurns(RunStep(Created(2), step), more)
  {
    hide *;
    CreatedIsReached(2);
    TurnsConcat(NewSession({}), [Install] + [One(CREATE)], [One(step)] + more);
    assert [Install] + [One(CREATE)] + ([One(step)] + more) == [Install, One(CREATE), One(step)] + more;
    OneTurn(Created(2), step, more);
  }

  lemma OneTurn(s: Session, step: Step, more: seq<Turn>)
    ensures TakeTurns(s, [One(step)] + more) == TakeTurns(RunStep(s, step), more)
  {
    hide RunStep;
    assert ([One(step)] + more)[1..] == more;
    assert TakeTurn(s, One(step)) == RunSteps(RunStep(s, step), Done);
  }

  lemma LeaksInHistory(step: Step, more: seq<Turn>)
    requires Inv(Created(2), {}) && Leaked(RunStep(Created(2), step), {}, 7)
    ensures Leaked(TakeTurns(NewSession({}), [Install, One(CREATE), One(step)] + more), {}, 7)
  {
    var s := Created(2);
    assert Outermost(s, {}) && s.depth == 0;
    RunStepOk(s, step, {});
    assert RunStep(s, step).depth == 0;
    hide *;
    ThreeTurns(step, more);
    LeakedForever(RunStep(s, step), more, 7);
  }

  /** Created and deleted before any host is there: the queue is not empty when hosts are
      installed, nor after that until some call has something to release. */
  lemma QueuedBeforeInstall(more: seq<Turn>)
    ensures var s := TakeTurns(NewSession({}), [One(CREATE), One(DelAutocmd(1)), Install]);
            && s.pending == [7] && s.slots == 2 && s.depth == 0
            && (TakeTurns(s, more).pending == [7] <==> !TurnsRelease(s, more))
  {
    var s0 := NewSession({});
    CreatedIsReached(0);
    var queued := RunStep(Created(0), DelAutocmd(1));
    assert [] + [One(CREATE)] == [One(CREATE)];
    DeletedIsQueued();
    var turns := [One(CREATE)] + [One(DelAutocmd(1)), Install];
    assert turns == [One(CREATE), One(DelAutocmd(1)), Install];
    TurnsConcat(s0, [One(CREATE)], [One(DelAutocmd(1)), Install]);
    assert [One(DelAutocmd(1)), Install][1..] == [Install] && [Install][1..] == [];
    assert TakeTurn(Created(0), One(DelAutocmd(1))) == queued;
    NewSessionOk({});
    TurnsOk(s0, turns);
    hide Inv;
    hide RunStep;
    TurnsQueue(InstallHosts(queued), more);
  }

  lemma DeletedIsQueued()
    ensures RunStep(Created(0), DelAutocmd(1)).pending == [7]
  {
    var s := Created(0);
    var e := s.store.entries[0];
    var doomed := WithApiId(1);
    assert s.store.entries == [e] && [e][1..] == [];
    assert Retain([e], doomed) == [e] + Retain([], doomed) == [e];
    assert Retain([e], Not(doomed)) == [] + Retain([], Not(doomed)) == [];
    assert Dropped(s.store, doomed) == [LuaCallback(7)];
    var t := Strip(s, doomed);
    assert !UsesLuaCallback(t.store, 7);
    assert Collect([], [LuaCallback(7)]) == Collect([7], []);
    assert ReleaseEach(t.(pending := []), [7]).0.pending == [7] by {
      assert [7][1..] == [];
      assert ReleaseOne(t.(pending := []), 7).0.pending == [7];
    }
  }
}
