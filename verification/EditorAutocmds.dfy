/** The editor-owned autocommand store as an object that its operations update. */
module EditorAutocmds {
  import opened Wrappers
  import opened AutocmdPatterns
  import opened AutocmdStore

  class Autocmds {
    var groups: map<GroupId, GroupState>
    var groupNames: map<string, GroupId>
    var entries: seq<Entry>
    var ignored: set<Event>
    var nextEntryId: nat
    var nextApiId: nat
    var nextGroup: nat
    var nextSequence: nat

    function Model(): Store
      reads this
    {
      Store(groups, groupNames, entries, ignored, nextEntryId, nextApiId, nextGroup, nextSequence)
    }

    constructor ()
      ensures Model() == NewStore() && Valid(Model())
    {
      groups := map[1 := Live(POPUPMENU)];
      groupNames := map[POPUPMENU := 1];
      entries := [];
      ignored := {};
      nextEntryId, nextApiId, nextGroup, nextSequence := 1, 1, 2, 1;
      new;
      NewValid();
    }

    method AllocateGroupId() returns (id: GroupId)
      modifies this`nextGroup
      ensures id == FreshGroup(groups, old(nextGroup)) && nextGroup == id + 1
    {
      var candidate := nextGroup;
      while candidate in groups
        invariant FreshGroup(groups, candidate) == FreshGroup(groups, nextGroup)
        decreases FreshGroup(groups, nextGroup) - candidate
      {
        candidate := candidate + 1;
      }
      nextGroup := candidate + 1;
      return candidate;
    }

    /** Removes the entries a test selects and hands back their payloads. */
    method Remove(doomed: Entry -> bool) returns (removed: seq<Kind>)
      modifies this`entries
      ensures Model() == Drop(old(Model()), doomed) && removed == Dropped(old(Model()), doomed)
    {
      var kept: seq<Entry>, gone: seq<Entry> := [], [];
      hide Retain;
      var all := entries;
      assert all[0..] == all;
      for i := 0 to |all|
        invariant kept + Retain(all[i..], Not(doomed)) == Retain(all, Not(doomed))
        invariant gone + Retain(all[i..], doomed) == Retain(all, doomed)
        invariant entries == all && Model() == old(Model())
      {
        RetainStep(all, i, doomed, gone);
        RetainStep(all, i, Not(doomed), kept);
        if doomed(all[i]) {
          gone := gone + [all[i]];
        } else {
          kept := kept + [all[i]];
        }
      }
      RetainEnds(all, doomed, gone);
      RetainEnds(all, Not(doomed), kept);
      removed := Kinds(gone);
      entries := kept;
    }

    static lemma RetainEnds(entries: seq<Entry>, keep: Entry -> bool, done: seq<Entry>)
      ensures done + Retain(entries[|entries|..], keep) == done
    {
    }

    static lemma RetainStep(entries: seq<Entry>, i: nat, keep: Entry -> bool, done: seq<Entry>)
      requires i < |entries|
      ensures done + Retain(entries[i..], keep)
           == (if keep(entries[i]) then done + [entries[i]] else done) + Retain(entries[i + 1..], keep)
    {
      assert entries[i..][1..] == entries[i + 1..];
    }

    method CreateGroup(name: string, clear: bool) returns (r: Result<GroupId, AutocmdError>)
      modifies this
      ensures match AutocmdStore.CreateGroup(old(Model()), name, clear)
              case Err(e) => r == Err(e) && Model() == old(Model())
              case Ok((s, id)) => r == Ok(id) && Model() == s
    {
      if name == [] {
        return Err(EmptyGroupName);
      }
      if name in groupNames {
        var id := groupNames[name];
        if clear {
          var cleared := ClearGroup(id);
          if cleared.Err? {
            return Err(cleared.error);
          }
        }
        return Ok(id);
      }
      var id := AllocateGroupId();
      groups := groups[id := Live(name)];
      groupNames := groupNames[name := id];
      return Ok(id);
    }

    method DeleteGroup(id: GroupId) returns (r: Result<seq<Kind>, AutocmdError>)
      modifies this
      ensures match AutocmdStore.DeleteGroup(old(Model()), id)
              case Err(e) => r == Err(e) && Model() == old(Model())
              case Ok(s) => r == Ok(Dropped(old(Model()), InGroup(id))) && Model() == s
    {
      if id !in groups {
        return Err(UnknownGroup);
      }
      var state := groups[id];
      groups := groups - {id};
      if state.Live? {
        groupNames := groupNames - {state.name};
      }
      var removed := Remove(InGroup(id));
      return Ok(removed);
    }

    method DeleteGroupLegacy(id: GroupId) returns (r: Result<(), AutocmdError>)
      modifies this
      ensures match AutocmdStore.DeleteGroupLegacy(old(Model()), id)
              case Err(e) => r == Err(e) && Model() == old(Model())
              case Ok(s) => r == Ok(()) && Model() == s
    {
      if id in groups && groups[id].Live? {
        groupNames := groupNames - {groups[id].name};
        groups := groups[id := Tombstoned];
        return Ok(());
      }
      return Err(UnknownGroup);
    }

    method ClearGroup(id: GroupId) returns (r: Result<seq<Kind>, AutocmdError>)
      modifies this
      ensures match AutocmdStore.ClearGroup(old(Model()), id)
              case Err(e) => r == Err(e) && Model() == old(Model())
              case Ok(s) => r == Ok(Dropped(old(Model()), InGroup(id))) && Model() == s
    {
      if id != 0 && !LiveGroup(Model(), id) {
        return Err(UnknownGroup);
      }
      var removed := Remove(InGroup(id));
      return Ok(removed);
    }

    method CommitRegistration(events: seq<Event>, kind: Kind, options: Options, parsed: seq<Parsed>, apiId: Option<nat>)
      modifies this`entries, this`nextEntryId, this`nextSequence
      ensures Model() == Commit(old(Model()), Batch(kind, options, apiId), Pairs(parsed, events))
    {
      ghost var batch := Batch(kind, options, apiId);
      assert parsed[0..] == parsed;
      for p := 0 to |parsed|
        invariant Commit(Model(), batch, Pairs(parsed[p..], events))
                  == Commit(old(Model()), batch, Pairs(parsed, events))
      {
        ghost var tail := Pairs(parsed[p + 1..], events);
        ghost var row := seq(|events|, i requires 0 <= i < |events| => (parsed[p], events[i]));
        assert parsed[p..][1..] == parsed[p + 1..];
        assert row[0..] + tail == Pairs(parsed[p..], events);
        for e := 0 to |events|
          invariant Commit(Model(), batch, row[e..] + tail) == Commit(old(Model()), batch, Pairs(parsed, events))
        {
          ghost var before := Model();
          var entryId := nextEntryId;
          nextEntryId := nextEntryId + 1;
          var sequence := nextSequence;
          nextSequence := nextSequence + 1;
          entries := entries
            + [Entry(entryId, apiId, sequence, events[e], parsed[p].stored, parsed[p].source, kind, options)];
          assert Model() == AddEntry(before, batch, row[e]);
          assert (row[e..] + tail)[1..] == row[e + 1..] + tail;
        }
        assert row[|events|..] + tail == tail;
      }
      assert parsed[|parsed|..] == [];
    }

    method RegisterApi(events: seq<Event>, patterns: string, kind: Kind, options: Options)
        returns (r: Result<nat, AutocmdError>)
      modifies this
      ensures match Register(old(Model()), events, patterns, kind, options, true)
              case Err(e) => r == Err(e) && Model() == old(Model())
              case Ok(s) => r == Ok(old(nextApiId)) && Model() == s
    {
      if events == [] {
        return Err(EmptyEvent);
      }
      var parsed := ParseRegistration(Model(), patterns, options);
      if parsed.Err? {
        return Err(parsed.error);
      }
      var apiId := nextApiId;
      nextApiId := nextApiId + 1;
      CommitRegistration(events, kind, options, parsed.value, Some(apiId));
      return Ok(apiId);
    }

    method RegisterLegacy(events: seq<Event>, patterns: string, kind: Kind, options: Options)
        returns (r: Result<(), AutocmdError>)
      modifies this
      ensures match Register(old(Model()), events, patterns, kind, options, false)
              case Err(e) => r == Err(e) && Model() == old(Model())
              case Ok(s) => r == Ok(()) && Model() == s
    {
      if events == [] {
        return Err(EmptyEvent);
      }
      var parsed := ParseRegistration(Model(), patterns, options);
      if parsed.Err? {
        return Err(parsed.error);
      }
      CommitRegistration(events, kind, options, parsed.value, None);
      return Ok(());
    }

    method Clear(filter: Filter) returns (removed: seq<Kind>)
      modifies this`entries
      ensures Model() == Drop(old(Model()), ByFilter(old(Model()), filter))
      ensures removed == Dropped(old(Model()), ByFilter(old(Model()), filter))
    {
      removed := Remove(ByFilter(Model(), filter));
    }

    method DeleteApiId(apiId: nat) returns (removed: seq<Kind>)
      modifies this`entries
      ensures Model() == Drop(old(Model()), WithApiId(apiId)) && removed == Dropped(old(Model()), WithApiId(apiId))
    {
      removed := Remove(WithApiId(apiId));
    }

    /** Drops what a test selects and remembers the last payload. */
    method RemoveLast(doomed: Entry -> bool) returns (removed: Option<Kind>)
      modifies this`entries
      ensures Model() == Drop(old(Model()), doomed) && removed == DroppedLast(old(Model()), doomed)
    {
      var kinds := Remove(doomed);
      removed := if kinds == [] then None else Some(kinds[|kinds| - 1]);
    }

    method DeleteEntry(id: nat) returns (removed: Option<Kind>)
      modifies this`entries
      ensures Model() == Drop(old(Model()), WithId(id)) && removed == DroppedLast(old(Model()), WithId(id))
    {
      removed := RemoveLast(WithId(id));
    }

    method ConsumeOnce(id: nat) returns (removed: Option<Kind>)
      modifies this`entries
      ensures Model() == Drop(old(Model()), OnceWithId(id)) && removed == DroppedLast(old(Model()), OnceWithId(id))
    {
      removed := RemoveLast(OnceWithId(id));
    }

    method RemoveBuffer(buffer: Buffer) returns (removed: seq<Kind>)
      modifies this`entries
      ensures Model() == Drop(old(Model()), LocalTo(buffer)) && removed == Dropped(old(Model()), LocalTo(buffer))
    {
      removed := Remove(LocalTo(buffer));
    }
  }
}
