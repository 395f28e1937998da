/** Decoration providers: which Lua references one `nvim_set_decoration_provider` call
    installs, which it releases, and when the two add up. */
module Providers {
  import opened Wrappers

  const KEYS: seq<string> := ["on_start", "on_buf", "on_win", "on_line", "on_range", "on_end",
                              "_on_hl_def", "_on_spell_nav", "_on_conceal_line"]

  datatype Value = LuaRef(reference: int) | Other

  type Opts = seq<(string, Value)>

  datatype ParseError = UnknownNamespace | UnexpectedKey | NotAFunction | BadReference

  datatype Callback = Callback(slot: nat, reference: nat)

  /** The callbacks of one provider, by slot; a cleared provider has none. */
  type Def = def: seq<Option<nat>> | |def| == 9 witness [None, None, None, None, None, None, None, None, None]

  const NO_CALLBACKS: Def := [None, None, None, None, None, None, None, None, None]

  function SlotOf(key: string, from: nat): Option<nat>
    decreases |KEYS| - from
  {
    if from >= |KEYS| then None else if KEYS[from] == key then Some(from) else SlotOf(key, from + 1)
  }

  function ParseOne(key: string, value: Value): (r: Result<Callback, ParseError>)
    ensures r.Ok? ==> r.value.slot < 9
  {
    SlotInRange(key, 0);
    match SlotOf(key, 0)
    case None => Err(UnexpectedKey)
    case Some(slot) =>
      if !value.LuaRef? then Err(NotAFunction)
      else if value.reference < 0 then Err(BadReference)
      else Ok(Callback(slot, value.reference))
  }

  function Parse(opts: Opts): (r: Result<seq<Callback>, ParseError>)
    ensures r.Ok? ==> InRange(r.value)
  {
    if opts == [] then Ok([])
    else match ParseOne(opts[0].0, opts[0].1)
      case Err(e) => Err(e)
      case Ok(c) => match Parse(opts[1..]) case Err(e) => Err(e) case Ok(cs) => Ok([c] + cs)
  }

  lemma {:induction false} SlotInRange(key: string, from: nat)
    ensures SlotOf(key, from).Some? ==> from <= SlotOf(key, from).value < 9 && KEYS[SlotOf(key, from).value] == key
    decreases |KEYS| - from
  {
    if from < |KEYS| && KEYS[from] != key {
      SlotInRange(key, from + 1);
    }
  }

  predicate InRange(parsed: seq<Callback>) {
    forall i :: 0 <= i < |parsed| ==> parsed[i].slot < 9
  }

  /** Each accepted option becomes the callback of its key's slot, in order. */
  lemma {:induction false} ParsedIs(opts: Opts)
    requires Parse(opts).Ok?
    ensures var parsed := Parse(opts).value;
            && |parsed| == |opts| && InRange(parsed)
            && forall i :: 0 <= i < |opts| ==>
                 KEYS[parsed[i].slot] == opts[i].0 && opts[i].1 == LuaRef(parsed[i].reference)
  {
    if opts != [] {
      SlotInRange(opts[0].0, 0);
      ParsedIs(opts[1..]);
    }
  }

  lemma ParseStep(opts: Opts, i: nat, parsed: seq<Callback>)
    requires i < |opts|
    ensures Gathered(parsed, Parse(opts[i..]))
         == match ParseOne(opts[i].0, opts[i].1)
            case Err(e) => Err(e)
            case Ok(c) => Gathered(parsed + [c], Parse(opts[i + 1..]))
  {
    assert opts[i..][0] == opts[i] && opts[i..][1..] == opts[i + 1..];
    var one, rest := ParseOne(opts[i].0, opts[i].1), Parse(opts[i + 1..]);
    if one.Ok? && rest.Ok? {
      assert parsed + ([one.value] + rest.value) == (parsed + [one.value]) + rest.value;
    }
  }

  method ParseProviderCallbacks(opts: Opts) returns (r: Result<seq<Callback>, ParseError>)
    ensures r == Parse(opts)
  {
    var parsed := [];
    assert opts[0..] == opts;
    GatheredNothing(Parse(opts));
    for i := 0 to |opts|
      invariant Gathered(parsed, Parse(opts[i..])) == Parse(opts)
    {
      ParseStep(opts, i, parsed);
      var one := ParseOne(opts[i].0, opts[i].1);
      if one.Err? {
        return Err(one.error);
      }
      parsed := parsed + [one.value];
    }
    assert opts[|opts|..] == [];
    assert parsed + [] == parsed;
    return Ok(parsed);
  }

  /** A later callback for a slot overwrites an earlier one. */
  function Ids(parsed: seq<Callback>): Def
    requires InRange(parsed)
  {
    if parsed == [] then NO_CALLBACKS
    else
      var last := parsed[|parsed| - 1];
      Ids(parsed[..|parsed| - 1])[last.slot := Some(last.reference)]
  }

  method CallbackIds(parsed: seq<Callback>) returns (def: Def)
    requires InRange(parsed)
    ensures def == Ids(parsed)
  {
    def := NO_CALLBACKS;
    for i := 0 to |parsed|
      invariant def == Ids(parsed[..i])
    {
      assert parsed[..i + 1][..i] == parsed[..i];
      def := def[parsed[i].slot := Some(parsed[i].reference)];
    }
    assert parsed[..|parsed|] == parsed;
  }

  function References(def: seq<Option<nat>>): seq<nat> {
    if def == [] then [] else (if def[0].Some? then [def[0].value] else []) + References(def[1..])
  }

  /** What is given back when a call fails: a negative reference is given back as 0. */
  function Incoming(opts: Opts): seq<nat> {
    if opts == [] then []
    else
      (if opts[0].1.LuaRef? then [if opts[0].1.reference < 0 then 0 else opts[0].1.reference] else [])
      + Incoming(opts[1..])
  }

  /** One call on one provider: the provider afterwards, what is released, the outcome. */
  datatype Change = Change(provider: Option<Def>, released: seq<nat>, outcome: Result<(), ParseError>)

  function SetProvider(provider: Option<Def>, known: bool, opts: Opts): Change {
    if !known then Change(provider, Incoming(opts), Err(UnknownNamespace))
    else match Parse(opts)
      case Err(e) => Change(provider, Incoming(opts), Err(e))
      case Ok(parsed) =>
        var released := if provider.Some? then References(provider.value) else [];
        if parsed == [] then Change(if provider.Some? then Some(NO_CALLBACKS) else None, released, Ok(()))
        else Change(Some(Ids(parsed)), released, Ok(()))
  }

  // ----- when a call conserves references

  function Held(provider: Option<Def>): multiset<int> {
    if provider.Some? then Ints(References(provider.value)) else multiset{}
  }

  function Ints(references: seq<nat>): multiset<int> {
    if references == [] then multiset{} else multiset{references[0] as int} + Ints(references[1..])
  }

  /** The references that a call's options own, as they were acquired. */
  function Acquired(opts: Opts): multiset<int> {
    if opts == [] then multiset{}
    else (if opts[0].1.LuaRef? then multiset{opts[0].1.reference} else multiset{}) + Acquired(opts[1..])
  }

  predicate NoNegative(opts: Opts) {
    forall i :: 0 <= i < |opts| && opts[i].1.LuaRef? ==> opts[i].1.reference >= 0
  }

  predicate DistinctKeys(opts: Opts) {
    forall i, j :: 0 <= i < j < |opts| ==> opts[i].0 != opts[j].0
  }

  predicate DistinctSlots(parsed: seq<Callback>) {
    forall i, j :: 0 <= i < j < |parsed| ==> parsed[i].slot != parsed[j].slot
  }

  lemma {:induction false} IncomingKept(opts: Opts)
    requires NoNegative(opts)
    ensures Ints(Incoming(opts)) == Acquired(opts)
  {
    if opts != [] {
      IncomingKept(opts[1..]);
      IncomingStep(opts);
    }
  }

  lemma IncomingStep(opts: Opts)
    requires opts != []
    ensures var rest, value := Ints(Incoming(opts[1..])), opts[0].1;
            Ints(Incoming(opts))
            == if value.LuaRef? then multiset{if value.reference < 0 then 0 else value.reference} + rest else rest
    ensures Acquired(opts)
            == if opts[0].1.LuaRef? then multiset{opts[0].1.reference} + Acquired(opts[1..]) else Acquired(opts[1..])
  {
    var rest := Incoming(opts[1..]);
    if opts[0].1.LuaRef? {
      var given: nat := if opts[0].1.reference < 0 then 0 else opts[0].1.reference;
      assert ([given] + rest)[1..] == rest;
    } else {
      assert [] + rest == rest;
    }
  }

  lemma {:induction false} IncomingNotNegative(opts: Opts)
    ensures forall r :: r in Ints(Incoming(opts)) ==> r >= 0
  {
    if opts != [] {
      IncomingNotNegative(opts[1..]);
      IncomingStep(opts);
    }
  }

  lemma {:induction false} NegativeAcquired(opts: Opts, i: nat)
    requires i < |opts| && opts[i].1.LuaRef?
    ensures opts[i].1.reference in Acquired(opts)
  {
    IncomingStep(opts);
    if i > 0 {
      NegativeAcquired(opts[1..], i - 1);
    }
  }

  lemma IncomingIs(opts: Opts)
    ensures Ints(Incoming(opts)) == Acquired(opts) <==> NoNegative(opts)
  {
    if NoNegative(opts) {
      IncomingKept(opts);
    } else {
      var i :| 0 <= i < |opts| && opts[i].1.LuaRef? && opts[i].1.reference < 0;
      NegativeAcquired(opts, i);
      IncomingNotNegative(opts);
    }
    hide Incoming;
    hide Acquired;
    hide Ints;
  }

  function One(reference: Option<nat>): multiset<int> {
    if reference.Some? then multiset{reference.value as int} else multiset{}
  }

  function HeldIn(def: seq<Option<nat>>): multiset<int> {
    if def == [] then multiset{} else One(def[0]) + HeldIn(def[1..])
  }

  lemma {:induction false} ReferencesHeld(def: seq<Option<nat>>)
    ensures Ints(References(def)) == HeldIn(def)
  {
    if def != [] {
      ReferencesHeld(def[1..]);
      var rest := References(def[1..]);
      if def[0].Some? {
        assert ([def[0].value] + rest)[1..] == rest;
      } else {
        assert [] + rest == rest;
      }
    }
  }

  lemma {:induction false} SlotFilled(def: seq<Option<nat>>, slot: nat, reference: nat)
    requires slot < |def|
    ensures HeldIn(def[slot := Some(reference)]) + One(def[slot])
         == HeldIn(def) + multiset{reference as int}
  {
    var after := def[slot := Some(reference)];
    hide HeldIn;
    HeldStep(after);
    HeldStep(def);
    if slot == 0 {
      assert after[1..] == def[1..];
      Exchange(multiset{reference as int}, HeldIn(def[1..]), One(def[0]));
    } else {
      assert after[1..] == def[1..][slot - 1 := Some(reference)];
      SlotFilled(def[1..], slot - 1, reference);
      AddFront(One(def[0]), HeldIn(after[1..]), One(def[slot]), HeldIn(def[1..]), multiset{reference as int});
    }
  }

  lemma HeldStep(def: seq<Option<nat>>)
    requires def != []
    ensures HeldIn(def) == One(def[0]) + HeldIn(def[1..])
  {
  }

  lemma Exchange(r: multiset<int>, t: multiset<int>, x: multiset<int>)
    ensures (r + t) + x == (x + t) + r
  {
  }

  lemma AddFront(h: multiset<int>, a: multiset<int>, x: multiset<int>, d: multiset<int>, r: multiset<int>)
    requires a + x == d + r
    ensures (h + a) + x == (h + d) + r
  {
    assert (h + a) + x == h + (a + x);
  }

  lemma {:induction false} NothingHeld(def: seq<Option<nat>>)
    requires forall i :: 0 <= i < |def| ==> def[i].None?
    ensures HeldIn(def) == multiset{}
  {
    if def != [] {
      NothingHeld(def[1..]);
    }
  }

  function RefsOf(parsed: seq<Callback>): multiset<int> {
    if parsed == [] then multiset{} else multiset{parsed[0].reference as int} + RefsOf(parsed[1..])
  }

  lemma {:induction false} RefsGrow(parsed: seq<Callback>, c: Callback)
    ensures RefsOf(parsed + [c]) == RefsOf(parsed) + multiset{c.reference as int}
  {
    if parsed == [] {
      assert (parsed + [c])[1..] == [];
    } else {
      assert (parsed + [c])[1..] == parsed[1..] + [c];
      RefsGrow(parsed[1..], c);
    }
  }

  lemma {:induction false} RefsSize(parsed: seq<Callback>)
    ensures |RefsOf(parsed)| == |parsed|
  {
    if parsed != [] {
      RefsSize(parsed[1..]);
    }
  }

  lemma {:induction false} SlotTaken(parsed: seq<Callback>, slot: nat)
    requires InRange(parsed) && slot < 9
    ensures Ids(parsed)[slot].Some? <==> exists i :: 0 <= i < |parsed| && parsed[i].slot == slot
  {
    if parsed != [] {
      var n := |parsed| - 1;
      SlotTaken(parsed[..n], slot);
      if parsed[n].slot != slot && Ids(parsed[..n])[slot].Some? {
        var i :| 0 <= i < n && parsed[..n][i].slot == slot;
        assert parsed[i].slot == slot;
      }
      if parsed[n].slot != slot && Ids(parsed[..n])[slot].None? {
        forall i | 0 <= i < |parsed|
          ensures parsed[i].slot != slot
        {
          if i < n {
            assert parsed[..n][i] == parsed[i];
          }
        }
      }
    }
  }

  lemma Sizes(a: multiset<int>, b: multiset<int>, c: multiset<int>, d: multiset<int>)
    requires a + b == c + d
    ensures |a| + |b| == |c| + |d|
  {
    assert |a + b| == |c + d|;
  }

  /** One more callback: what the definition holds, and what it should hold. */
  lemma OneMore(before: seq<Callback>, c: Callback)
    requires InRange(before) && c.slot < 9
    ensures InRange(before + [c])
    ensures var had, now := HeldIn(Ids(before)), HeldIn(Ids(before + [c]));
            && now + One(Ids(before)[c.slot]) == had + multiset{c.reference as int}
            && |now| == |had| + (if Ids(before)[c.slot].Some? then 0 else 1)
  {
    assert (before + [c])[..|before|] == before;
    SlotFilled(Ids(before), c.slot, c.reference);
    hide HeldIn;
    Sizes(HeldIn(Ids(before + [c])), One(Ids(before)[c.slot]), HeldIn(Ids(before)), multiset{c.reference as int});
  }

  /** The installed definition holds every parsed reference exactly when no slot is named
      twice; otherwise it holds fewer. */
  lemma {:induction false} IdsHoldAll(parsed: seq<Callback>)
    requires InRange(parsed)
    ensures |HeldIn(Ids(parsed))| <= |parsed|
    ensures HeldIn(Ids(parsed)) == RefsOf(parsed) <==> DistinctSlots(parsed)
  {
    RefsSize(parsed);
    if parsed == [] {
      NothingHeld(NO_CALLBACKS);
    } else {
      var n, c := |parsed| - 1, parsed[|parsed| - 1];
      var before := parsed[..n];
      assert parsed == before + [c];
      IdsHoldAll(before);
      RefsGrow(before, c);
      OneMore(before, c);
      SlotTaken(before, c.slot);
      DistinctGrow(before, c);
      hide HeldIn;
      hide Ids;
      hide RefsOf;
      hide DistinctSlots;
      var had, now, one := HeldIn(Ids(before)), HeldIn(Ids(parsed)), multiset{c.reference as int};
      if Ids(before)[c.slot].None? {
        assert now + multiset{} == now;
        SameSum(had, RefsOf(before), one);
      }
    }
  }

  lemma SameSum(a: multiset<int>, b: multiset<int>, c: multiset<int>)
    ensures a + c == b + c <==> a == b
  {
    if a + c == b + c {
      assert a == (a + c) - c == (b + c) - c == b;
    }
  }

  lemma DistinctGrow(parsed: seq<Callback>, c: Callback)
    ensures DistinctSlots(parsed + [c])
            <==> DistinctSlots(parsed) && forall i :: 0 <= i < |parsed| ==> parsed[i].slot != c.slot
  {
    var all := parsed + [c];
    if DistinctSlots(all) {
      forall i | 0 <= i < |parsed|
        ensures parsed[i].slot != c.slot
      {
        assert all[i].slot != all[|parsed|].slot;
      }
      forall i, j | 0 <= i < j < |parsed|
        ensures parsed[i].slot != parsed[j].slot
      {
        assert all[i].slot != all[j].slot;
      }
    }
  }

  lemma {:induction false} ParsedAcquired(opts: Opts)
    requires Parse(opts).Ok?
    ensures Acquired(opts) == RefsOf(Parse(opts).value)
  {
    if opts != [] {
      ParsedAcquired(opts[1..]);
    }
  }

  lemma KeysDistinct(i: nat, j: nat)
    requires i < j < 9
    ensures KEYS[i] != KEYS[j]
  {
    assert |KEYS[0]| == 8 && |KEYS[1]| == 6 && |KEYS[2]| == 6 && |KEYS[3]| == 7 && |KEYS[4]| == 8 && |KEYS[5]| == 6;
    assert |KEYS[6]| == 10 && |KEYS[7]| == 13 && |KEYS[8]| == 16;
    assert KEYS[0][3] == 's' && KEYS[4][3] == 'r';
    assert KEYS[1][3] == 'b' && KEYS[2][3] == 'w' && KEYS[5][3] == 'e';
  }

  lemma KeysAreSlots(opts: Opts)
    requires Parse(opts).Ok?
    ensures DistinctKeys(opts) <==> DistinctSlots(Parse(opts).value)
  {
    ParsedIs(opts);
    var parsed := Parse(opts).value;
    forall i, j | 0 <= i < j < |opts|
      ensures opts[i].0 == opts[j].0 <==> parsed[i].slot == parsed[j].slot
    {
      var a, b := parsed[i].slot, parsed[j].slot;
      if a < b {
        KeysDistinct(a, b);
      } else if b < a {
        KeysDistinct(b, a);
      }
    }
  }

  /** What one call releases and what the provider then holds are together what the provider
      held and what the call acquired, exactly when: on success, no key is given twice; on
      failure, no reference is negative. */
  lemma CallConserves(provider: Option<Def>, known: bool, opts: Opts)
    ensures var change := SetProvider(provider, known, opts);
            && Held(change.provider) + Ints(change.released) == Held(provider) + Acquired(opts)
            <==> (if change.outcome.Ok? then DistinctKeys(opts) else NoNegative(opts))
  {
    if SetProvider(provider, known, opts).outcome.Err? {
      IncomingIs(opts);
      SameSum(Ints(Incoming(opts)), Acquired(opts), Held(provider));
      hide Held;
      hide Ints;
      hide Acquired;
      hide Parse;
      Swap(Held(provider), Ints(Incoming(opts)));
      Swap(Held(provider), Acquired(opts));
    } else {
      InstallConserves(provider, opts);
      hide Parse;
      hide Ids;
      hide Ints;
      hide Acquired;
      var now := if Parse(opts).value == [] then NO_CALLBACKS else Ids(Parse(opts).value);
      assert SetProvider(provider, known, opts).released == if provider.Some? then References(provider.value) else [];
      assert Ints(SetProvider(provider, known, opts).released) == Held(provider) by { NoInts(); }
      EmptyHolds();
      SameSum(Held(Some(now)), Acquired(opts), Held(provider));
      Swap(Held(provider), Acquired(opts));
      hide Held;
    }
  }

  lemma Swap(a: multiset<int>, b: multiset<int>)
    ensures a + b == b + a
  {
  }

  lemma NoInts()
    ensures Ints([]) == multiset{}
  {
  }

  lemma EmptyHolds()
    ensures Held(None) == Held(Some(NO_CALLBACKS)) == multiset{}
  {
    ReferencesHeld(NO_CALLBACKS);
    NothingHeld(NO_CALLBACKS);
  }

  lemma InstallConserves(provider: Option<Def>, opts: Opts)
    requires Parse(opts).Ok?
    ensures var now := if Parse(opts).value == [] then NO_CALLBACKS else Ids(Parse(opts).value);
            Held(Some(now)) == Acquired(opts) <==> DistinctKeys(opts)
  {
    var parsed := Parse(opts).value;
    ParsedAcquired(opts);
    KeysAreSlots(opts);
    IdsHoldAll(parsed);
    ReferencesHeld(Ids(parsed));
    hide Parse;
    hide HeldIn;
    hide RefsOf;
    hide Acquired;
    hide DistinctKeys;
    hide DistinctSlots;
  }

  // ----- what one call does, option by option

  /** The position of a callback's key in a provider's definition. */
  predicate Names(key: string, slot: nat) {
    || (key == "on_start" && slot == 0) || (key == "on_buf" && slot == 1) || (key == "on_win" && slot == 2)
    || (key == "on_line" && slot == 3) || (key == "on_range" && slot == 4) || (key == "on_end" && slot == 5)
    || (key == "_on_hl_def" && slot == 6) || (key == "_on_spell_nav" && slot == 7)
    || (key == "_on_conceal_line" && slot == 8)
  }

  /** What is wrong with one option, if anything is. */
  predicate Faulty(key: string, value: Value, error: ParseError) {
    var named := exists slot: nat | slot < 9 :: Names(key, slot);
    || (error == UnexpectedKey && !named)
    || (error == NotAFunction && named && value == Other)
    || (error == BadReference && named && value.LuaRef? && value.reference < 0)
  }

  lemma {:induction false} SlotOfFirst(key: string, from: nat)
    ensures match SlotOf(key, from)
            case None => forall i :: from <= i < |KEYS| ==> KEYS[i] != key
            case Some(slot) => from <= slot < |KEYS| && KEYS[slot] == key
    decreases |KEYS| - from
  {
    if from < |KEYS| && KEYS[from] != key {
      SlotOfFirst(key, from + 1);
    }
  }

  lemma KeysAreNames(key: string, slot: nat)
    ensures slot < |KEYS| && KEYS[slot] == key <==> Names(key, slot)
  {
  }

  lemma SlotOfIs(key: string)
    ensures match SlotOf(key, 0)
            case None => forall slot: nat :: slot < 9 ==> !Names(key, slot)
            case Some(slot) => slot < 9 && Names(key, slot)
  {
    SlotOfFirst(key, 0);
    forall slot: nat
      ensures slot < |KEYS| && KEYS[slot] == key <==> Names(key, slot)
    {
      KeysAreNames(key, slot);
    }
    hide Names;
  }

  lemma ParseOneExact(key: string, value: Value)
    ensures match ParseOne(key, value)
            case Err(error) => Faulty(key, value, error)
            case Ok(c) => Names(key, c.slot) && value == LuaRef(c.reference) && forall e :: !Faulty(key, value, e)
  {
    SlotOfIs(key);
    hide Names;
  }

  /** The options are refused with what is wrong with the first faulty one, and accepted exactly
      if none is; each is then the callback of its key. */
  lemma {:induction false} ParseExact(opts: Opts)
    ensures match Parse(opts)
            case Err(error) =>
              exists k :: 0 <= k < |opts| && Faulty(opts[k].0, opts[k].1, error)
                && forall i, e :: 0 <= i < k ==> !Faulty(opts[i].0, opts[i].1, e)
            case Ok(parsed) =>
              && |parsed| == |opts| && (forall i, e :: 0 <= i < |opts| ==> !Faulty(opts[i].0, opts[i].1, e))
              && forall i :: 0 <= i < |opts| ==>
                   Names(opts[i].0, parsed[i].slot) && opts[i].1 == LuaRef(parsed[i].reference)
  {
    hide Faulty;
    hide Names;
    if opts != [] {
      ParseOneExact(opts[0].0, opts[0].1);
      ParseExact(opts[1..]);
      assert forall i :: 0 < i < |opts| ==> opts[i] == opts[1..][i - 1];
      var one, rest := ParseOne(opts[0].0, opts[0].1), Parse(opts[1..]);
      if one.Ok? && rest.Err? {
        var k :| 0 <= k < |opts| - 1 && Faulty(opts[1..][k].0, opts[1..][k].1, rest.error)
          && forall i, e :: 0 <= i < k ==> !Faulty(opts[1..][i].0, opts[1..][i].1, e);
        assert Faulty(opts[k + 1].0, opts[k + 1].1, rest.error);
      }
      hide ParseOne;
    }
  }

  /** The reference that the last option with the slot's key gives, if one has it. */
  predicate LastGiven(opts: Opts, slot: nat, held: Option<nat>) {
    && (held.None? ==> forall i :: 0 <= i < |opts| ==> !Names(opts[i].0, slot))
    && (held.Some? ==>
          exists k :: 0 <= k < |opts| && Names(opts[k].0, slot) && opts[k].1 == LuaRef(held.value)
            && forall i :: k < i < |opts| ==> !Names(opts[i].0, slot))
  }

  predicate CallbacksOf(opts: Opts, parsed: seq<Callback>) {
    && |parsed| == |opts| && InRange(parsed)
    && forall i :: 0 <= i < |opts| ==> Names(opts[i].0, parsed[i].slot) && opts[i].1 == LuaRef(parsed[i].reference)
  }

  lemma {:induction false} IdsAreLast(opts: Opts, parsed: seq<Callback>, slot: nat)
    requires CallbacksOf(opts, parsed) && slot < 9
    ensures LastGiven(opts, slot, Ids(parsed)[slot])
  {
    if parsed != [] {
      var n := |parsed| - 1;
      IdsAreLast(opts[..n], parsed[..n], slot);
      OneSlot(opts[n].0, parsed[n].slot, slot);
      hide Names;
      hide Ids;
      IdsNext(parsed);
      LastGivenNext(opts, slot, Ids(parsed[..n])[slot]);
    }
  }

  lemma OneSlot(key: string, a: nat, b: nat)
    requires Names(key, a)
    ensures Names(key, b) <==> a == b
  {
  }

  lemma IdsNext(parsed: seq<Callback>)
    requires InRange(parsed) && parsed != []
    ensures var last := parsed[|parsed| - 1];
            Ids(parsed) == Ids(parsed[..|parsed| - 1])[last.slot := Some(last.reference)]
  {
  }

  lemma LastGivenNext(opts: Opts, slot: nat, held: Option<nat>)
    requires opts != [] && LastGiven(opts[..|opts| - 1], slot, held)
    ensures !Names(opts[|opts| - 1].0, slot) ==> LastGiven(opts, slot, held)
    ensures forall r: nat :: Names(opts[|opts| - 1].0, slot) && opts[|opts| - 1].1 == LuaRef(r) ==>
              LastGiven(opts, slot, Some(r))
  {
    hide Names;
    var n := |opts| - 1;
    assert forall i :: 0 <= i < n ==> opts[..n][i] == opts[i];
    if !Names(opts[n].0, slot) && held.Some? {
      var k :| 0 <= k < n && Names(opts[..n][k].0, slot) && opts[..n][k].1 == LuaRef(held.value)
        && forall i :: k < i < n ==> !Names(opts[..n][i].0, slot);
      assert Names(opts[k].0, slot) && opts[k].1 == LuaRef(held.value);
    }
  }

  /** One call: an unknown namespace or a faulty option leaves the provider and gives every
      incoming reference back; otherwise the provider's old references are released, and each of
      its slots holds what the last option with its key gave, or nothing. No options clear a
      provider and make none. */
  lemma SetProviderExact(provider: Option<Def>, known: bool, opts: Opts)
    ensures var change := SetProvider(provider, known, opts);
            var faulty := exists i, e :: 0 <= i < |opts| && Faulty(opts[i].0, opts[i].1, e);
            && (change.outcome.Ok? <==> known && !faulty)
            && (!known ==> change.outcome == Err(UnknownNamespace))
            && (change.outcome.Err? ==> change.provider == provider && change.released == Incoming(opts))
            && (change.outcome.Ok? ==>
                  && change.released == (if provider.Some? then References(provider.value) else [])
                  && (change.provider.None? <==> provider.None? && opts == [])
                  && (change.provider.Some? ==>
                        forall slot :: 0 <= slot < 9 ==> LastGiven(opts, slot, change.provider.value[slot])))
  {
    ParseExact(opts);
    if known && Parse(opts).Ok? {
      InstalledIs(opts);
    }
    hide Faulty;
    hide Parse;
    hide Ids;
    hide LastGiven;
    hide Incoming;
    hide References;
    hide Names;
  }

  lemma InstalledIs(opts: Opts)
    requires Parse(opts).Ok?
    ensures var parsed := Parse(opts).value;
            && (parsed == [] <==> opts == [])
            && forall slot :: 0 <= slot < 9 ==>
                 LastGiven(opts, slot, if parsed == [] then NO_CALLBACKS[slot] else Ids(parsed)[slot])
  {
    ParseExact(opts);
    var parsed := Parse(opts).value;
    hide Faulty;
    hide Names;
    hide Parse;
    assert CallbacksOf(opts, parsed);
    forall slot | 0 <= slot < 9
      ensures LastGiven(opts, slot, Ids(parsed)[slot])
    {
      IdsAreLast(opts, parsed, slot);
    }
  }
}
