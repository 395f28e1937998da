# A verified model of oxvim's autocommands, option merges and scanners

This project models the parts of oxvim where several pieces of state have to stay in step,
and proves what they keep. Each module follows one part of the source.

* **Autocommands** (`AutocmdPatterns`, `AutocmdStore`, `EditorAutocmds`). The store of augroups
  and definitions is a value with one function per operation; the class `Autocmds` updates the
  same state in place and is proved equal to those functions. The main results are the invariant
  over every sequence of operations, what a registration adds, what a removal hands back, which
  definitions it takes, and that a plan lists exactly the definitions that an event meets, all
  said in the definitions' own fields.
* **Nested firing** (`FiringModel`, `FiringSafety`, `FiringTheorems`, `FiringCoverage`,
  `FiringSteps`, `LeaksPersist`, `FiringLeaks`, `FiringExamples`, `FiringSession`). Host code is
  an arbitrary finite tree of API calls; a handler's own calls run one frame deeper, and may
  register, delete or clear definitions or fire stored plans again. The model tracks the
  executor pool, the queue of deferred Lua-reference releases, and a trace of executions and
  removals. Over every history: no reference is freed early, twice or while a definition uses
  it; no slot is borrowed twice; a one-shot definition runs at most once; nothing runs after its
  removal. `FiringCoverage` says which definitions of a plan run and what its answer means,
  `FiringSteps` what the other calls do. `FiringLeaks` says which references leak, that a leak
  is for ever, and when the queue is empty; `FiringExamples` has the shortest histories. The
  class `ApiSession` does the same steps in place.
* **Pattern language** (`Globs`, `Braces`, `BraceBalance`, `BraceEscapes`). A rolling-row
  matcher and a one-backtrack matcher against one recursive reference; comma splitting and brace
  expansion against a grammar of nested groups and escaped characters and its ordered product
  meaning, with the exact condition on escapes under which an accepted pattern expands to what
  it means.
* **Option values** (`CommaItems`, `OptionMerge`, `OptionSearch`, `OptionLaws`,
  `OptionTheorems`, `OptionPasses`, `OptionHidden`, `OptionStuck`, `OptionIdempotence`,
  `OptionFlags`, `OptionForms`). Edits at character offsets are shown to be list operations, for
  all texts: the search for an item sees those that no odd run of backslashes precedes. The
  merges obey the laws of an ordered map, of a list, and of a set of flags. When adding a value
  twice is adding it once is said exactly, and `OptionIdempotence` says for which new values a
  keyed merge is idempotent whatever the option's value. Structured values round trip to a
  normal form.
* **Executors and providers** (`LuaModel`, `LuaExecutors`, `Providers`). The Lua and Ex-command
  pools, whose frames interleave, and the queue of Lua callback releases, as functions of the
  whole state and as an object proved equal to them: every release asked for is made once or is
  queued, and when in order. For one provider call, exactly when references are conserved.
* **Search path** (`SearchPath`, `SearchOrder`). The builder against a list of visits, first
  occurrences, where each stretch of the path comes from and with which tags, and the cache over
  every history.
* **Scanners and converters** (`LuaLexer`, `LuaTables`, `OptionTableScanner`,
  `BuiltinTableScanner`, `LuaScannersAgree`, `ArgSplit`, `ArgWords`, `Typvals`, `CallerStack`).
  Two Lua brace matchers against a byte-at-a-time machine, and that against tables in print; two
  argument splitters against an escaping printer and against words in any white space;
  conversion of cyclic values to trees; the stack of live API callers.

Texts are sequences of characters. Counters are unbounded. `Option` and `Result` stand for
absent values and error returns; an error keeps its class, not its message.

## Where the code and its description differ

* `create_group` with `clear` discards the payloads it removes
  (crates/ox-editor/src/autocmd.rs:527-531), so references held only by that group are never
  released: `FiringLeaks.ClearLeaks`, `FiringExamples.ClearLeaksInHistory`.
* Wiping a buffer discards the payloads of its buffer-local definitions
  (crates/ox-editor/src/editor.rs:3180), with the same result: `FiringLeaks.WipeLeaks`,
  `FiringExamples.WipeLeaksInHistory`.
* A registration that fails leaves its callback's reference unreleased: `FiringLeaks.NothingLeaks`.
* Releases queued before a host is installed stay queued at depth zero until some call has
  something to release: `FiringLeaks.QueueEmptyIff`, `FiringExamples.QueuedBeforeInstall`. Lua
  releases queued so can be overtaken: `LuaModel.InOrderIff`.
* `split_user_command_args` reads one character past the end when the text ends in an escape
  pair (crates/ox-api/src/command.rs:812): `ArgSplit.OverrunIff`.
* `split_file_list` trims a vertical tab at the start of an argument but does not separate
  arguments there: the condition in `ArgSplit.FileListRoundTrip`.
* The splitter skips an escaped brace and the expander counts it, so an accepted pattern may not
  expand, or may expand to something else: `BraceEscapes.ExpandsToMeaningIff`,
  `BraceEscapes.EscapedOpenFails`, `BraceEscapes.EscapedCloseMisleads`.
* `wildcard` tests for a literal match before it tests for a star, so a text that itself holds
  a star can be missed: `Globs.WildcardExactIff`.
* Merging a value that gives a key twice may move the key at every merge:
  `OptionIdempotence.MergingTwiceIff`, `OptionIdempotence.RepeatedKeyMoves`.
* The search for an item without a key counts backslashes and the split into items does not, so
  such an item can be added twice, as in `OptionTheorems.BackslashHides`; exactly when:
  `OptionTheorems.AddingTwiceIff`, `OptionTheorems.MergingItemTwiceIff`, and for which new
  values: `OptionIdempotence.HiddenTwiceIff`.
* Appending to an option without empty items swallows a trailing comma:
  `OptionTheorems.RemoveUndoesAppend`.
* A provider call that names a key twice loses a reference, and a failing one gives back a
  negative reference as 0: `Providers.CallConserves`.
* When a list or dictionary is mutably borrowed, the converter returns without taking it out of
  its set of active containers: `Typvals.ActiveRestoredIff`, `Typvals.BorrowedStaysActive`.

## Model

| member | source | states |
|---|---|---|
| FiringTheorems.EveryHistoryIsSafe | crates/ox-api/src/runtime.rs:811-885 | over every history of installs and nested runs: no free that is early, double or of a used reference, no borrow of a borrowed slot, no call of a freed callback; back at depth zero no slot is borrowed and every used reference is alive |
| FiringTheorems.RunsRestoreTheDepth | crates/ox-api/src/runtime.rs:715-764 | any nested run, failing or not, restores the depth and the borrowed slots; the next frame's slot is free and one push suffices |
| FiringTheorems.EveryTraceIsInOrder | crates/ox-api/src/autocmd.rs:29-59 | in every trace nothing runs after its removal, a one-shot definition runs at most once and right after it left the store, and each frame runs in registration order |
| FiringTheorems.FrameRunsItsPlan | crates/ox-api/src/autocmd.rs:29-59 | a frame executes only definitions of its own plan |
| FiringTheorems.TraceInOrder | crates/ox-editor/src/autocmd.rs:928-947 | the step-by-step trace condition gives the three statements about any two positions of a trace |
| FiringCoverage.PlanRunsItsDefinitions | crates/ox-api/src/autocmd.rs:29-59 | in a frame with a host, whatever handlers do: each planned definition that was there runs or leaves the store, up to the last that ran if the answer is not ok; the answer is ok exactly if no handler that ran failed and no free was refused; nothing runs after a failure, and a definition whose handler asks for it is deleted |
| FiringCoverage.SilentPlanExact | crates/ox-api/src/autocmd.rs:29-59 | with handlers that make no API calls, an ok answer means that exactly the planned definitions that are there ran, in order; and exactly those leave the store that ran and are one-shot or were asked to be deleted |
| FiringCoverage.NoHostRunsNothing | crates/ox-api/src/runtime.rs:848-885 | without a host a plan runs nothing and answers ok, and its one-shot definitions are gone |
| FiringCoverage.ReleaseEachExact | crates/ox-api/src/autocmd.rs:67-87 | at depth zero with a host the unused references are freed in order, up to the first that the host refuses, which the answer reports |
| FiringCoverage.RunByIs | crates/ox-api/src/autocmd.rs:29-59 | the list of what a frame ran holds an id exactly if the trace has its execution in that frame |
| FiringCoverage.InstalledHosts | crates/ox-api/src/runtime.rs:811-885 | installed hosts serve two levels of frames, and a third by forking |
| FiringSteps.StepIsOk | crates/ox-api/src/autocmd.rs:556-795 | each other API call is one operation of the store, or none: for an id of zero, a group that is not live, or a filter without one; a new callback's reference is not in use |
| FiringSteps.StepPlans | crates/ox-editor/src/autocmd.rs:895-923 | only taking a plan adds one, and only that plan |
| FiringLeaks.NothingLeaks | crates/ox-api/src/autocmd.rs:61-87 | with a host that refuses no free, in every history of installs and host code that removes only through releasing removers, the references not freed are exactly those used, queued or of a failed registration, and the leaked ones exactly the last |
| FiringLeaks.UnfreedExactly | crates/ox-api/src/autocmd.rs:61-87 | for every host, refusing or not, and all host code: in every history the references not freed are exactly those used, queued, of a failed registration, or thrown away or refused and since then neither in use nor queued; the leaked ones are the last two kinds |
| FiringLeaks.QueueEmptyIff | crates/ox-api/src/runtime.rs:811-840 | at depth zero with hosts installed the queue is empty exactly if it was when they were installed, or some later call had something to release |
| FiringLeaks.RemovalDrains | crates/ox-api/src/runtime.rs:811-840 | a removal that releases, at depth zero with a host, empties the queue |
| LeaksPersist.LeakedThroughRuns | crates/ox-api/src/autocmd.rs:29-87 | at any depth, a reference leaked and not in flight is still leaked after every nested run |
| LeaksPersist.LeakedForever | crates/ox-api/src/autocmd.rs:29-87 | a reference leaked at depth zero is never freed, used or queued again, whatever is installed or run |
| FiringLeaks.ClearLeaks | crates/ox-editor/src/autocmd.rs:523-537 | at any depth, re-creating a group with clear leaks a reference exactly if only that group's definitions hold it, it is not queued and no live frame will release it; and then it stays leaked |
| FiringLeaks.WipeLeaks | crates/ox-editor/src/autocmd.rs:855-866 | the same of wiping a buffer and its buffer-local definitions |
| FiringLeaks.ReleasingClearDoesNot | crates/ox-api/src/autocmd.rs:762-785 | the releasing clear of the same group leaks none of them |
| FiringExamples.ClearLeaksInHistory | crates/ox-editor/src/autocmd.rs:523-537 | from a new session: install, create, re-create the group with clear, and the reference is leaked whatever follows |
| FiringExamples.WipeLeaksInHistory | crates/ox-editor/src/autocmd.rs:855-866 | from a new session: install, create, wipe the buffer, likewise |
| FiringExamples.QueuedBeforeInstall | crates/ox-api/src/runtime.rs:811-840 | create, delete, install leaves the queue non-empty at depth zero with a host, until a call has something to release |
| FiringSafety.ReleaseRemovedOk | crates/ox-api/src/autocmd.rs:61-87 | releasing what was removed keeps the ownership invariant with nothing left in flight, and empties the queue at depth zero |
| FiringSafety.WithExecutorOk | crates/ox-api/src/runtime.rs:848-885 | a frame keeps the invariant, frees nothing, and adds only executions of its own action and of newer frames |
| FiringSafety.ExecutePlanOk | crates/ox-api/src/autocmd.rs:29-59 | executing a plan keeps the invariant, whatever its handlers do and however early it stops |
| FiringSafety.RunStepOk | crates/ox-api/src/autocmd.rs:657-795 | every API call keeps the invariant and relates to the earlier session as `Later` says |
| FiringSafety.RunStepsOk | crates/ox-api/src/autocmd.rs:29-87 | the same for any finite run of calls, by induction over the tree |
| FiringSafety.ConsumeOk | crates/ox-editor/src/autocmd.rs:928-939 | consuming a one-shot definition puts its reference in flight and lets it run |
| FiringSession.ApiSession.ReleaseAutocmdCallback | crates/ox-api/src/runtime.rs:811-837 | queues once inside a frame or without a host, and otherwise asks the primary host |
| FiringSession.ApiSession.ReleaseRemoved | crates/ox-api/src/autocmd.rs:67-87 | takes the queue, adds the removed references without repeats, releases those no definition uses, and stops at the first refusal |
| FiringSession.ApiSession.WithAutocmdExecutor | crates/ox-api/src/runtime.rs:848-885 | the frame in place: grow, borrow, run, give back |
| FiringSession.ApiSession.ExecuteFiringPlan | crates/ox-api/src/autocmd.rs:29-59 | the firing loop in place is the plan's function, which `FiringCoverage.PlanRunsItsDefinitions` says runs every definition |
| FiringSession.ApiSession.CreateAutocmd | crates/ox-api/src/autocmd.rs:556-654 | registration under a fresh reference; a failure leaves the reference unregistered |
| FiringSession.ApiSession.DelAutocmd | crates/ox-api/src/autocmd.rs:657-667 | deletes one API id's entries and releases their payloads |
| FiringSession.ApiSession.DelAugroup | crates/ox-api/src/autocmd.rs:670-716 | deletes a live group with its entries and releases their payloads |
| FiringSession.ApiSession.ClearAutocmds | crates/ox-api/src/autocmd.rs:762-785 | clears what a filter selects and releases the payloads |
| FiringSession.ApiSession.CreateAugroup | crates/ox-api/src/autocmd.rs:788-795 | creates a group, throwing away what clear removes |
| FiringSession.ApiSession.SetAutocmdExecutor | crates/ox-api/src/runtime.rs:620-634 | installing hosts resets the pool to a primary and a nested one |
| FiringSession.ApiSession.RunSteps | crates/ox-api/src/runtime.rs:848-885 | the session object run on a tree of calls is the model run on it |
| AutocmdStore.ReachableValid | crates/ox-editor/src/autocmd.rs:504-660 | after every sequence of operations names invert the live groups, entries name known groups, ids and sequences rise along the entries and stay below their counters |
| AutocmdStore.RunValid | crates/ox-editor/src/autocmd.rs:504-866 | the same from any valid store, with group numbers never going back |
| AutocmdStore.FreshGroupIsEmpty | crates/ox-editor/src/autocmd.rs:955-965 | a new group's id was never used, so no entry belongs to it |
| AutocmdStore.RecreatedGroupIsNew | crates/ox-editor/src/autocmd.rs:627-637 | re-creating a deleted name after any operations gives another id than the old group's |
| AutocmdStore.RegisterApiExact | crates/ox-editor/src/autocmd.rs:670-685 | success adds exactly events times non-empty patterns entries under one fresh API id, and deleting that id restores the list |
| AutocmdStore.RegisteredAt | crates/ox-editor/src/autocmd.rs:730-756 | which entry each pattern and event gets, with its ids |
| AutocmdStore.ErrorsChangeNothing | crates/ox-editor/src/autocmd.rs:711-728 | exactly which inputs a registration refuses |
| AutocmdStore.DropConserves | crates/ox-editor/src/autocmd.rs:772-866 | every remover hands back exactly the payloads that left the store |
| AutocmdStore.ClearDropsWhatQueryLists | crates/ox-editor/src/autocmd.rs:762-789 | clearing drops what the same query lists, in order, and leaves nothing it lists |
| AutocmdStore.RemovesExactly | crates/ox-editor/src/autocmd.rs:523-866 | for each operation, exactly which of the definitions there go, by their own fields; only a registration adds any |
| AutocmdStore.QueryExact | crates/ox-editor/src/autocmd.rs:762-770 | a query reports each definition that no given criterion excludes, once, in registration order, with its fields and its group's name |
| AutocmdStore.PlanExact | crates/ox-editor/src/autocmd.rs:895-923 | a plan lists, in registration order, exactly the definitions of the event, in the group asked for if any, whose pattern is local to the event's buffer or has a string that matches the name or its last component; it is empty for an ignored event or a handler that is not nested; and each action repeats its definition's fields |
| AutocmdStore.SortIsStable | crates/ox-editor/src/autocmd.rs:895-923 | the sort of any list is ascending and stable and keeps the definitions |
| EditorAutocmds.Autocmds.AllocateGroupId | crates/ox-editor/src/autocmd.rs:955-965 | the search loop finds the first free id and ends |
| EditorAutocmds.Autocmds.CreateGroup | crates/ox-editor/src/autocmd.rs:523-537 | the in-place operation is the store's function, errors included |
| EditorAutocmds.Autocmds.DeleteGroup | crates/ox-editor/src/autocmd.rs:600-617 | likewise, with the removed payloads |
| EditorAutocmds.Autocmds.DeleteGroupLegacy | crates/ox-editor/src/autocmd.rs:627-637 | likewise, leaving a tombstone |
| EditorAutocmds.Autocmds.ClearGroup | crates/ox-editor/src/autocmd.rs:646-660 | likewise |
| EditorAutocmds.Autocmds.RegisterApi | crates/ox-editor/src/autocmd.rs:670-685 | likewise; an error leaves every field as it was |
| EditorAutocmds.Autocmds.RegisterLegacy | crates/ox-editor/src/autocmd.rs:694-707 | likewise, without an API id |
| EditorAutocmds.Autocmds.CommitRegistration | crates/ox-editor/src/autocmd.rs:730-756 | the nested loops add one entry per pattern and event, the pattern varying slowest |
| EditorAutocmds.Autocmds.Clear | crates/ox-editor/src/autocmd.rs:772-789 | keeps what the filter rejects, hands back the rest |
| EditorAutocmds.Autocmds.DeleteApiId | crates/ox-editor/src/autocmd.rs:792-803 | drops one API id's entries |
| EditorAutocmds.Autocmds.DeleteEntry | crates/ox-editor/src/autocmd.rs:807-818 | drops one entry and hands back its payload if it was there |
| EditorAutocmds.Autocmds.ConsumeOnce | crates/ox-editor/src/autocmd.rs:928-939 | drops one entry if it is one-shot and hands back its payload |
| AutocmdStore.DropsOne | crates/ox-editor/src/autocmd.rs:807-818 | in a valid store a removal by id drops at most one payload, so the one handed back is all of them |
| EditorAutocmds.Autocmds.RemoveBuffer | crates/ox-editor/src/autocmd.rs:855-866 | drops a buffer's local entries |
| AutocmdPatterns.CanonicalIsStable | crates/ox-editor/src/autocmd.rs:1097-1130 | a canonical buffer pattern parses to its own number and is its own source |
| AutocmdPatterns.BufferSyntax | crates/ox-editor/src/autocmd.rs:1109-1130 | which texts are buffer syntax and which buffer or error each stands for |
| AutocmdPatterns.ParseIntegerExact | crates/ox-editor/src/autocmd.rs:1109-1130 | a text is a number exactly if it is digits after an optional sign and fits 64 bits |
| AutocmdPatterns.DecimalReadsBack | crates/ox-editor/src/autocmd.rs:1109-1130 | the decimal spelling of a handle reads back |
| AutocmdPatterns.ItemMatches | crates/ox-editor/src/autocmd.rs:1068-1104 | an item of the brace grammar whose escaped braces do no harm matches a name exactly if one of the strings it denotes matches |
| Globs.GlobMatch | crates/ox-editor/src/autocmd.rs:1209-1243 | the rolling rows decide the recursive reference, escapes and a trailing backslash included |
| Globs.TokensReadBack | crates/ox-editor/src/autocmd.rs:1209-1243 | stars, question marks and characters, marked where needed, are read back from their print |
| Globs.Wildcard | crates/ox-api/src/runtime.rs:241-263 | the loop ends and computes the one-backtrack search |
| Globs.WildcardSound | crates/ox-api/src/runtime.rs:241-263 | true means that a match exists, for all inputs |
| Globs.WildcardExact | crates/ox-api/src/runtime.rs:241-263 | on a text without a star the answer is exactly whether a match exists |
| Globs.WildcardExactIff | crates/ox-api/src/runtime.rs:241-263 | a text is decided rightly under every pattern exactly if it has no star |
| Globs.MatchersAgree | crates/ox-editor/src/autocmd.rs:1209-1243 | the two matchers agree on patterns without backslashes and texts without stars |
| Braces.SplitPatternList | crates/ox-editor/src/autocmd.rs:1132-1173 | the splitting loop is the recursive splitter, errors included |
| Braces.SplitAcceptsGrammar | crates/ox-editor/src/autocmd.rs:1132-1173 | the splitter accepts exactly the lists of the brace grammar with escapes, a trailing backslash standing for two |
| Braces.FindEnd | crates/ox-editor/src/autocmd.rs:1175-1194 | the depth-counting loop finds the brace that closes the first group |
| Braces.ExpandBraces | crates/ox-editor/src/autocmd.rs:1175-1207 | the expander is its function, and ends because each call has fewer opening braces |
| Braces.ExpandDenotes | crates/ox-editor/src/autocmd.rs:1175-1207 | expanding a pattern without harmful escapes lists exactly its ordered product meaning |
| Braces.ExpandJoined | crates/ox-editor/src/autocmd.rs:1175-1207 | expanding one pattern without harmful escapes after another is the product of the two expansions |
| BraceEscapes.ExpandsToMeaningIff | crates/ox-editor/src/autocmd.rs:1132-1207 | a pattern of the grammar expands to what it denotes exactly if it has no escaped opening brace and no escaped closing brace inside an open group |
| BraceEscapes.ExpansionExact | crates/ox-editor/src/autocmd.rs:1132-1207 | every accepted list has a parse, and each part expands to what it denotes exactly under that condition |
| BraceEscapes.ExpansionPreservesMeaning | crates/ox-editor/src/autocmd.rs:1132-1207 | every accepted list without backslashes has a parse whose parts expand, without braces, to what they denote |
| BraceEscapes.EscapedOpenFails | crates/ox-editor/src/autocmd.rs:1132-1207 | an escaped opening brace that the splitter accepts and the expander refuses |
| BraceEscapes.EscapedCloseMisleads | crates/ox-editor/src/autocmd.rs:1132-1207 | an escaped closing brace that both accept, and that expands to a string the pattern does not denote |
| BraceBalance.NeverLower | crates/ox-editor/src/autocmd.rs:1175-1207 | without escaped opening braces, expansion never loses an unescaped closing brace that has no opening one |
| OptionTheorems.EachKeyOnce | crates/ox-api/src/option_merge.rs:290-323 | after an append or prepend each key of the new value occurs once, with its last value |
| OptionTheorems.OthersKeepTheirOrder | crates/ox-api/src/option_merge.rs:290-323 | all other non-empty items keep their values and order, whatever the operation |
| OptionTheorems.RemovedKeysAreGone | crates/ox-api/src/option_merge.rs:300-305 | a removal drops every item with a named key |
| OptionTheorems.EachMentionRemovesOne | crates/ox-api/src/option_merge.rs:315-319 | an item without a key is removed once per mention, when no item of the option's value ends in an odd run of backslashes, whatever the new value holds |
| OptionIdempotence.MergingTwiceIff | crates/ox-api/src/option_merge.rs:290-323 | without backslashes, merging is idempotent for every value of the option exactly if no item of constant value is first mentioned after the last value change of a key |
| OptionIdempotence.KeyedTwiceIff | crates/ox-api/src/option_merge.rs:290-323 | with backslashes on either side, the same condition is exact for a new value whose items all name keys |
| OptionIdempotence.HiddenTwiceIff | crates/ox-api/src/option_merge.rs:290-323 | for a new value without backslashes that gives each key one value: idempotent for every value of the option, backslashes included, exactly if after the last first mention of a key each item without one is mentioned twice (append), or again after the first mention of each other such item (prepend) |
| OptionIdempotence.RepeatedItemStays | crates/ox-api/src/option_merge.rs:290-323 | appending a value that gives an item twice is idempotent for every value of the option, and of two items given once it is not |
| OptionHidden.RenewedIsSettled | crates/ox-api/src/option_merge.rs:290-323 | one merge of a renewed value leaves each of its items settled, so that the search finds it or its key has its value, whatever backslashes the option's value holds |
| OptionStuck.NotRenewedIsStuck | crates/ox-api/src/option_merge.rs:290-323 | for every other such value there is a list of items whose second merge differs from the first |
| OptionIdempotence.MergingTwiceIsMergingOnce | crates/ox-api/src/option_merge.rs:290-323 | without backslashes, merging is idempotent when the new value gives each key one value |
| OptionIdempotence.RepeatedKeyMoves | crates/ox-api/src/option_merge.rs:290-323 | a value that gives a key twice and then names another item moves the key when merged again |
| OptionIdempotence.RepeatedKeyMayStay | crates/ox-api/src/option_merge.rs:290-323 | a value that only gives a key twice is idempotent |
| OptionTheorems.BackslashHides | crates/ox-api/src/option_merge.rs:139-176 | after a value that ends in a backslash, appending an item twice adds it twice although duplicates are denied |
| OptionTheorems.NewItemLands | crates/ox-api/src/option_merge.rs:139-176 | in the merge of texts, keyed or plain, an item not left in place becomes the last under append and the first under prepend, beside all items without its key or all that an append keeps |
| OptionTheorems.RemoveUndoesAppend | crates/ox-api/src/option_merge.rs:179-231 | removing an appended item that was not found before restores the value, exactly unless the append swallowed a trailing comma or the value ended in an odd run of backslashes |
| OptionTheorems.RemoveUndoesPrepend | crates/ox-api/src/option_merge.rs:179-231 | removing a prepended value restores the text, exactly unless it was there and duplicates are denied |
| OptionTheorems.RemoveIsNoOpIffAbsent | crates/ox-api/src/option_merge.rs:212-231 | removal changes nothing exactly if the value has no such item that the search sees |
| OptionTheorems.AddingTwiceIff | crates/ox-api/src/option_merge.rs:139-176 | with duplicates denied, adding any value twice is adding it once exactly unless it is new and appended after an odd run of backslashes and does not overlap what is kept |
| OptionTheorems.AddingItemTwiceIff | crates/ox-api/src/option_merge.rs:139-176 | for a value without commas: exactly unless it is new and appended after an odd run of backslashes |
| OptionTheorems.MergingItemTwiceIff | crates/ox-api/src/option_merge.rs:307-319 | the same condition for one item without a key in a keyed merge |
| OptionTheorems.AddingTwiceIsAddingOnce | crates/ox-api/src/option_merge.rs:150-161 | so append and prepend are idempotent on option values without backslashes |
| OptionTheorems.FlagsUnite | crates/ox-api/src/option_merge.rs:261-282 | merged flags are the union of both values, none repeated |
| OptionFlags.FlagsMerged | crates/ox-api/src/option_merge.rs:139-176 | for both kinds of flag lists and every operation: the values joined, or cut where the new one is first found, and of that the last occurrence of each flag, in order |
| OptionFlags.RemovedFlags | crates/ox-api/src/option_merge.rs:212-231 | a value taken out of flags without repeats leaves the others as they were, and none of its own |
| OptionFlags.RemovedFlag | crates/ox-api/src/option_merge.rs:212-231 | one flag of such a value goes and the rest stays |
| OptionFlags.AddedFlagIsRemoved | crates/ox-api/src/option_merge.rs:139-231 | adding a flag and removing it restores such a value; removing an absent one changes nothing |
| OptionFlags.KeepLastPicks | crates/ox-api/src/option_merge.rs:261-282 | deduplication keeps exactly the positions of last occurrences, in order |
| OptionFlags.RemovalTakesTheFirst | crates/ox-api/src/option_merge.rs:212-231 | for every kind, a removal cuts the first place where the value stands, with one comma in a list, and nothing if there is none |
| OptionFlags.FirstOrNowhere | crates/ox-api/src/option_merge.rs:236-258 | every text has a first such place or none |
| OptionFlags.PlainTexts | crates/ox-api/src/option_merge.rs:139-231 | plain texts are appended to, prepended to, or cut at the first place of the value; a denied duplicate changes nothing |
| OptionTheorems.TrailingComma | crates/ox-api/src/option_merge.rs:179-208 | an append after a trailing comma adds a second one exactly in a list that may have empty items |
| OptionLaws.MergeEachIs | crates/ox-api/src/option_merge.rs:290-323 | on all texts, the merge of all items is the fold of the list merge |
| OptionSearch.FindDupIs | crates/ox-api/src/option_merge.rs:236-258 | on all texts, the offset search finds the start of the first equal item that it sees |
| OptionSearch.FindDupFirst | crates/ox-api/src/option_merge.rs:236-258 | the search with its running count finds the first offset at which the value stands between separators, a comma after an odd run of backslashes being none |
| OptionSearch.BeginsIffSeen | crates/ox-api/src/option_merge.rs:236-258 | an item starts where the search can begin exactly if the item before it does not end in an odd run |
| OptionLaws.MergeItemIs | crates/ox-api/src/option_merge.rs:297-319 | on all texts, merging one item is the list step for it |
| OptionLaws.MergeLeaves | crates/ox-api/src/option_merge.rs:290-323 | a test that selects nothing the new items touch selects the same before and after |
| OptionMerge.FindDupItem | crates/ox-api/src/option_merge.rs:236-258 | the loop with its backslash count is the search function |
| OptionMerge.FindKeyItem | crates/ox-api/src/option_merge.rs:340-348 | offset and length of the first item with the key from an offset on |
| OptionMerge.FindKeyIs | crates/ox-api/src/option_merge.rs:340-348 | that offset is where the first item of the list with the key starts |
| OptionMerge.RemoveCommaItemIs | crates/ox-api/src/option_merge.rs:374-383 | the edit takes exactly one item out of the list |
| OptionMerge.RemoveKeyItem | crates/ox-api/src/option_merge.rs:353-370 | the loop ends, and drops every item with the key, or every one after the first |
| OptionMerge.InsertIs | crates/ox-api/src/option_merge.rs:326-335 | the edit adds one item at an end of the list |
| OptionMerge.MergeKeyItems | crates/ox-api/src/option_merge.rs:290-323 | the loop over the new items is the fold, and says when the plain merge applies |
| OptionMerge.RemoveDupFlags | crates/ox-api/src/option_merge.rs:261-282 | the in-place loop keeps the last occurrence of each flag, and of each flag with its comma for a flag list without empty items |
| OptionMerge.MergeString | crates/ox-api/src/option_merge.rs:139-176 | the whole merge, with its early return for a duplicate, is the function that the laws above are about |
| OptionForms.StructuredRoundTrip | crates/ox-api/src/global.rs:1994-2220 | reading back the structured form of a text gives its normal form, for every list kind |
| OptionForms.NormalItems | crates/ox-api/src/global.rs:2167-2220 | the items of the normal form: in order, first occurrences under denied duplicates, or sorted |
| OptionForms.NormalIsStable | crates/ox-api/src/global.rs:1994-2106 | normal forms are stable |
| OptionForms.SortSorts | crates/ox-api/src/global.rs:2066-2098 | the sorted parts are the same strings with their multiplicities, in byte order |
| OptionForms.DictTextExact | crates/ox-api/src/global.rs:2053-2106 | the text of any dictionary is what its entries add, each by its value, in order for flags and sorted otherwise; an error exactly for other kinds or a value that fits none |
| OptionForms.ArrayTextExact | crates/ox-api/src/global.rs:2020-2036 | the text of any array is its strings, each where it first occurs if duplicates are denied; an error exactly for no list or another item |
| OptionForms.KeyEntryExact | crates/ox-api/src/global.rs:2167-2200 | an item with a colon is a key and a string, split at the first one, and another item is a key that is true |
| OptionForms.ArrayToParts | crates/ox-api/src/global.rs:2020-2036 | the loop over an array's strings, dropping repeats when duplicates are denied |
| OptionForms.DictToOptionString | crates/ox-api/src/global.rs:2053-2106 | the loop over a dictionary's entries, with its type errors |
| Typvals.TypvalToObjectInner | crates/ox-api/src/global.rs:2275-2331 | the traversal ends on every heap, is the path-based conversion, and restores the active set, except for a container found borrowed |
| Typvals.ActiveRestoredIff | crates/ox-api/src/global.rs:2275-2331 | the active set is restored for every value, depth and path exactly if no cell of the heap is borrowed |
| Typvals.BorrowedStaysActive | crates/ox-api/src/global.rs:2275-2331 | a heap of two cells on which it is not |
| Typvals.ObjectShowsTheWalks | crates/ox-api/src/global.rs:2275-2331 | the object's positions are exactly the walks that repeat no container, with Nil at the back edges |
| Typvals.AcyclicConvertsByUnfolding | crates/ox-api/src/global.rs:2275-2331 | without cycles the conversion is the plain unfolding under a hundred levels, and fails for depth otherwise |
| Typvals.FewCellsAlwaysConvert | crates/ox-api/src/global.rs:2275-2331 | a heap of fewer than a hundred containers converts however its references run |
| Typvals.ConvertsIff | crates/ox-api/src/global.rs:2242-2269 | an object converts exactly if it has no Lua reference and is nested less than a hundred deep |
| Typvals.ConvertsBack | crates/ox-api/src/global.rs:2242-2331 | its value converts back, in any later heap, to the object with handles as integers |
| Typvals.RoundTrip | crates/ox-api/src/global.rs:2242-2331 | without handles the object comes back unchanged, repeated keys included |
| Typvals.ScalarsConvert | crates/ox-api/src/global.rs:2283-2329 | what each value that holds no other converts to |
| Typvals.HundredLevels | crates/ox-api/src/global.rs:2242-2282 | at a hundred levels nothing converts, either way |
| LuaScannersAgree.Compare | crates/ox-eval/build.rs:235-255 | at every opening brace of every text both matchers give the reference machine's answer, which for a printed table is its last brace |
| LuaTables.PrintedTableCloses | crates/ox-editor/build.rs:447-556 | for every table in print, with strings in either quote, escapes, line and long comments, long brackets of any level and nested tables, the brace that opens it is matched by its last one |
| OptionTableScanner.MatchingDelimiter | crates/ox-editor/build.rs:447-473 | the first matcher is the reference machine |
| OptionTableScanner.SkipNonCode | crates/ox-editor/build.rs:489-503 | one look ahead in the text before the end given: a string, long bracket or comment as a whole, or plain code |
| OptionTableScanner.SkipQuoted | crates/ox-editor/build.rs:505-519 | the end of a string, backslashes skipping the next byte |
| OptionTableScanner.SkipComment | crates/ox-editor/build.rs:521-531 | the end of a line or long comment |
| OptionTableScanner.LongBracketOpen | crates/ox-editor/build.rs:533-543 | the level of a long bracket and where its content starts |
| OptionTableScanner.FindLongBracketClose | crates/ox-editor/build.rs:545-556 | just past the closer of the same level |
| BuiltinTableScanner.MatchingBraceAt | crates/ox-eval/build.rs:235-255 | from any position the second matcher is the same reference machine |
| BuiltinTableScanner.SkipQuoted | crates/ox-eval/build.rs:290-304 | the end of a string |
| BuiltinTableScanner.LongBracketLevel | crates/ox-eval/build.rs:306-315 | the level of a long bracket |
| BuiltinTableScanner.SkipLongBracket | crates/ox-eval/build.rs:317-335 | the end of a long bracket, searched byte by byte |
| BuiltinTableScanner.SkipComment | crates/ox-eval/build.rs:337-346 | the end of a line or long comment |
| LuaLexer.CodeCloses | crates/ox-editor/build.rs:489-503 | the machine's run over what is not code amounts to one jump over it |
| LuaLexer.LongCloses | crates/ox-editor/build.rs:545-556 | reading a long bracket byte by byte ends where searching for its closer does |
| ArgSplit.SplitFileList | crates/ox-editor/src/arglist.rs:254-277 | the nested loops end and compute the splitting function |
| ArgSplit.FileListReadsPrinted | crates/ox-editor/src/arglist.rs:254-277 | splitting a printed list gives each argument without its leading vertical tabs, in order, empty ones dropped |
| ArgSplit.FileListRoundTrip | crates/ox-editor/src/arglist.rs:254-277 | the splitter undoes the printer exactly on lists of arguments none of which is empty or starts with a vertical tab |
| ArgSplit.FileListUndoesFullEscaping | crates/ox-editor/src/arglist.rs:254-277 | when the printer escapes the vertical tab too, the splitter undoes it exactly on non-empty arguments |
| ArgSplit.SplitUserCommandArgs | crates/ox-api/src/command.rs:788-829 | the nested loops end and compute the splitting function, or the read past the end |
| ArgSplit.OverrunIff | crates/ox-api/src/command.rs:805-815 | the read past the end happens exactly if the text ends in an escape pair |
| ArgSplit.UserArgsReadsPrinted | crates/ox-api/src/command.rs:788-829 | splitting a printed list gives its non-empty arguments, or the read past the end when the last one ends in a backslash or whitespace |
| ArgSplit.UserArgsRoundTrip | crates/ox-api/src/command.rs:788-829 | the splitter undoes the printer exactly if no argument is empty and the last does not end in a backslash or whitespace |
| ArgWords.WordsAreSplit | crates/ox-api/src/command.rs:788-829 | words with any tabs, line feeds, form feeds, carriage returns and spaces before, between and after them are what both splitters give |
| LuaModel.RunAllOwes | crates/ox-api/src/runtime.rs:690-944 | over every interleaving of frames of both pools, each release that the tree asks for, skipped bodies left out, was made once or is queued, and in the order asked for unless some waited outside frames for a host that is there |
| LuaModel.InOrderIff | crates/ox-api/src/runtime.rs:690-709 | every tree's releases keep their order exactly if none waits outside frames although there is a host |
| LuaModel.LuaFrame | crates/ox-api/src/runtime.rs:890-944 | what a Lua frame answers: no host exactly without a slot, the operation's own error first, and a release error exactly if a release still waiting when the body ended was refused; all asked for has then been made |
| LuaModel.FramesAnswer | crates/ox-api/src/runtime.rs:766-944 | a frame of either pool finds a host exactly if the pool has one for the depth or can fork it, and changes nothing otherwise; a command frame fails exactly with its operation |
| LuaModel.ProviderCall | crates/ox-api/src/extmark.rs:805-838 | a provider call changes the provider of its namespace only, and what it releases is made or queued in order |
| LuaModel.RunAllWaits | crates/ox-api/src/runtime.rs:921-935 | which releases still wait at the end of a frame's body: those since the last nested frame that drained |
| LuaModel.AskKeepsDepths | crates/ox-api/src/runtime.rs:715-764 | whatever frames fail or find no host, both depths come back and no pool shrinks |
| LuaExecutors.Executors.ReleaseLuaCallback | crates/ox-api/src/runtime.rs:690-709 | one request is one free at depth zero with a host, and otherwise one more queued reference |
| LuaExecutors.Executors.WithLuaExecutor | crates/ox-api/src/runtime.rs:890-944 | the frame in place, with its answer, is the model's frame; no slot is borrowed twice |
| LuaExecutors.Executors.LeaveLuaFrame | crates/ox-api/src/runtime.rs:921-935 | every queued release is attempted in order on a slot that is not borrowed, and the first refusal is remembered |
| LuaExecutors.Executors.WithCommandExecutor | crates/ox-api/src/runtime.rs:766-806 | likewise for the command pool, which drains nothing |
| LuaExecutors.Executors.RunCalls | crates/ox-api/src/runtime.rs:690-944 | the object run on a tree of calls is the model run on it |
| LuaExecutors.Executors.SetDecorationProvider | crates/ox-api/src/extmark.rs:805-838 | success installs or clears and releases exactly the old references; failure keeps the provider and releases the incoming ones |
| LuaExecutors.Executors.SetLuaExecutor | crates/ox-api/src/runtime.rs:668-682 | installing Lua hosts at any depth sets the pool, resets the depth and changes nothing else |
| LuaExecutors.Executors.SetCommandExecutor | crates/ox-api/src/runtime.rs:650-664 | likewise for the command hosts |
| LuaExecutors.RunSession | crates/ox-api/src/runtime.rs:650-944 | from a new session, with hosts installed between two trees of calls: every release asked for was made once or is queued, and all in order if none was asked for before the hosts |
| Providers.ParseProviderCallbacks | crates/ox-api/src/extmark.rs:708-728 | the loop parses every option or gives the first error |
| Providers.ParsedIs | crates/ox-api/src/extmark.rs:708-728 | each accepted option is one callback of its key's slot |
| Providers.ParseExact | crates/ox-api/src/extmark.rs:708-728 | the options are refused for the first faulty one, by an unknown key, a value that is no function, or a negative reference, and accepted exactly if none is |
| Providers.SetProviderExact | crates/ox-api/src/extmark.rs:789-838 | one call: what is left as it was or given back on failure; otherwise each slot holds what the last option with its key gave, and the old references are released |
| Providers.CallbackIds | crates/ox-api/src/extmark.rs:730-749 | a later callback for a slot overwrites an earlier one |
| Providers.IdsHoldAll | crates/ox-api/src/extmark.rs:730-766 | the definition holds every parsed reference exactly if no slot is named twice |
| Providers.CallConserves | crates/ox-api/src/extmark.rs:805-838 | one call conserves references exactly if no key is given twice, on success, or no reference is negative, on failure |
| SearchPath.BuildSearchPath | crates/ox-api/src/runtime.rs:324-368 | the builder walks exactly the specified visits, whose order and tags are those of the next two rows |
| SearchOrder.SearchPathOrder | crates/ox-api/src/runtime.rs:324-368 | the path is four stretches: entries before the first `after` one with the bundles of those that are packs, bundles of the other packs, tagged `after` directories of all bundles, and the rest, tagged where the entry is an `after` directory; each stretch holds what its patterns expand to and nothing else, and no directory is listed twice |
| SearchOrder.EntryOrder | crates/ox-api/src/runtime.rs:340-352 | within the first stretch the entries come in order, each followed by its packages and then its start directory if it is a pack |
| SearchOrder.PathIsAfterIff | crates/ox-api/src/runtime.rs:274-278 | an entry is an `after` directory exactly if its last component is `after` |
| SearchPath.SearchPathBuilder.Push | crates/ox-api/src/runtime.rs:293-303 | an entry on the path is skipped, otherwise its new expansions are added in order |
| SearchPath.SearchPathBuilder.PushPack | crates/ox-api/src/runtime.rs:308-314 | a 'packpath' entry adds its start bundles and queues their after directories |
| SearchPath.SearchPathIsFirstOccurrences | crates/ox-api/src/runtime.rs:282-368 | when expanding a listed path yields only that path, the result is the first occurrences of all expansions, in order |
| SearchPath.FindRuntimeFiles | crates/ox-api/src/runtime.rs:411-438 | the lookup walks the path for each blank-separated word of the name; without all it is the at most one element prefix of the full lookup |
| SearchOrder.FoundExact | crates/ox-api/src/runtime.rs:411-438 | a lookup goes directory by directory and word by word |
| SearchOrder.JoinSlashExact | crates/ox-api/src/runtime.rs:376-382 | one slash joins a directory, without its trailing ones, to a name |
| SearchOrder.NameWords | crates/ox-api/src/runtime.rs:411-438 | the words of a name are what spaces and tabs separate |
| SearchPath.RuntimeState.WithSearchPath | crates/ox-api/src/runtime.rs:387-405 | the walk sees a path freshly built for the current options |
| SearchPath.RuntimeState.SetFileIO | crates/ox-api/src/runtime.rs:638-643 | a new filesystem discards the cached path |
| SearchPath.RunUses | crates/ox-api/src/runtime.rs:387-405 | over every history each lookup walks what a fresh build would give |
| CallerStack.Callers.EnterCall | crates/ox-api/src/session.rs:232-247 | a caller enters on top under a fresh token |
| CallerStack.Callers.DropGuard | crates/ox-api/src/session.rs:267-280 | a guard removes exactly its own frame |
| CallerStack.RunHistory | crates/ox-api/src/session.rs:220-280 | in whatever order guards drop, the live frames are those entered and not left, in order, and the requesting channel is that of the last entered of them |

## Left out

- The API registration macro, generated tables and dispatch: plumbing without a hard claim.
- The execution of Lua, Vimscript and Ex commands: host code is an arbitrary tree of calls, so
  no property depends on what a script means; the Ex-command firing loop of
  crates/ox-editor/src/excmd_exec.rs is not modelled.
- Entering and restoring a buffer's window context around an action.
- The description, script context and data of a definition, and the amatch path join; events
  are numbers in the event table.
- The real filesystem, environment variables and `expand_value`: expansion is a fixed function.
- Saturation of 64-bit counters, UTF-8 decoding and display widths; texts are compared by
  character.
- Re-installing hosts while a frame is live: `SetLuaExecutor` and `SetCommandExecutor` may be
  called at any depth, but the frames of that moment, which later give their slots back, are not
  modelled, and autocommand hosts are installed at depth zero.
- Panic unwinding through a frame guard.
- Number options: their merges saturate at the bounds of 64-bit integers.
- Parsing a number from the text of a number option, and the deprecated setters' own type gate.
- `runtime_get_named`, which walks the same cached path as `find_runtime_files`.
- The other option-table and builtin-table parsing of the two build scripts.
- FiringSession.ApiSession.CreateAutocmd: the options are parsed already; their validation, the
  default pattern and the resolution of a buffer handle are not modelled.
- FiringSession.ApiSession.WipeBuffer: the wiped buffer's payloads are thrown away, as at
  crates/ox-editor/src/editor.rs:3180; the rest of wiping a buffer is not modelled.
- OptionIdempotence.MergingTwiceIff: of values without backslashes. With them,
  `KeyedTwiceIff` and `HiddenTwiceIff` cover the new values that only name keys, and those that
  give each key one value and have no backslash themselves; new values that change a key and
  also hold items without keys, or hold such items and backslashes, are left open.
- OptionTheorems.EachMentionRemovesOne: the count is not stated for an option value in which an
  item ends in an odd run of backslashes; a removal may there hide or show the next occurrence.
- OptionTableScanner.MatchingDelimiter: the delimiters are braces, as at each of its calls.
- OptionTableScanner.SkipNonCode: a long bracket that opens before the end must have its opening
  before it too; where it would straddle the end, the code slices backwards and stops.
- SearchPath.SearchPathIsFirstOccurrences: the filesystem is fixed between two calls of
  `set_file_io`.
