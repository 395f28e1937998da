/** The laws of the option merges, on the texts of the values. */
module OptionTheorems {
  import opened Wrappers
  import opened CommaItems
  import opened OptionMerge
  import opened OptionSearch
  import opened OptionLaws

  // ----- the keyed merge is an update of an ordered map

  /** A new value that goes through the keyed merge: it names a key or several items. */
  predicate GoesKeyed(kind: ListKind, newval: string) {
    Keyed(kind) && (':' in newval || ',' in newval)
  }

  lemma KeyedMerge(kind: ListKind, nodup: bool, origval: string, newval: string, op: SetOp)
    requires GoesKeyed(kind, newval)
    ensures Merge(kind, nodup, origval, newval, op) == MergeEach(origval, Items(newval), op)
  {
    hide Items;
    hide MergeEach;
  }

  lemma MergeIsList(kind: ListKind, nodup: bool, origval: string, newval: string, op: SetOp)
    requires GoesKeyed(kind, newval)
    ensures Items(Merge(kind, nodup, origval, newval, op)) == MergeList(Items(origval), Items(newval), op)
  {
    MergeEachIs(origval, Items(newval), op);
    hide Items;
    hide MergeEach;
    hide MergeList;
  }

  /** A new item that is not empty and that no item of the new value touches. */
  function Bystander(news: seq<string>): string -> bool {
    (y: string) => y != "" && forall k :: 0 <= k < |news| ==> !Touches(news[k], y)
  }

  /** Whatever the operation, the other items keep their values and their order. */
  lemma OthersKeepTheirOrder(kind: ListKind, nodup: bool, origval: string, newval: string, op: SetOp)
    requires GoesKeyed(kind, newval)
    ensures var others := Bystander(Items(newval));
            Filter(Items(Merge(kind, nodup, origval, newval, op)), others) == Filter(Items(origval), others)
  {
    MergeIsList(kind, nodup, origval, newval, op);
    MergeLeaves(Items(origval), Items(newval), op, Bystander(Items(newval)));
  }

  lemma {:induction false} LastWithIs(news: seq<string>, k: nat, key: string)
    requires k < |news| && Occurs(key, news[k], 0)
    ensures LastWith(news, key).Some?
  {
    if k < |news| - 1 && !Occurs(key, news[|news| - 1], 0) {
      LastWithIs(news[..|news| - 1], k, key);
    }
  }

  /** After an append or a prepend each key the new value names occurs exactly once, with
      the value of its last occurrence there. */
  lemma EachKeyOnce(kind: ListKind, nodup: bool, origval: string, newval: string, op: SetOp, k: nat)
    requires GoesKeyed(kind, newval) && op != Remove
    requires k < |Items(newval)| && ':' in Items(newval)[k]
    ensures var key := KeyOf(Items(newval)[k]);
            && LastWith(Items(newval), key).Some?
            && Filter(Items(Merge(kind, nodup, origval, newval, op)), HasKey(key))
                == [LastWith(Items(newval), key).value]
  {
    var news := Items(newval);
    MergeIsList(kind, nodup, origval, newval, op);
    LastWithIs(news, k, KeyOf(news[k]));
    MergedKey(Items(origval), news, op, news[k]);
  }

  /** A removal drops every item with a key the new value names, whatever its value. */
  lemma RemovedKeysAreGone(kind: ListKind, nodup: bool, origval: string, newval: string, k: nat)
    requires GoesKeyed(kind, newval)
    requires k < |Items(newval)| && ':' in Items(newval)[k]
    ensures Filter(Items(Merge(kind, nodup, origval, newval, Remove)), HasKey(KeyOf(Items(newval)[k]))) == []
  {
    MergeIsList(kind, nodup, origval, newval, Remove);
    RemovedKey(Items(origval), Items(newval), k);
  }

  // ----- an item that is merged already

  /** An item whose merge would change nothing. */
  predicate Settled(items: seq<string>, x: string) {
    if ':' in x then Filter(items, HasKey(KeyOf(x))) == [x] else FirstSeen(items, x, 0) < |items|
  }

  lemma {:induction false} NothingElse(items: seq<string>, key: string)
    requires Filter(items, HasKey(key)) == []
    ensures Filter(items, LacksKey(key)) == items
  {
    if items != [] {
      NothingElse(items[1..], key);
    }
  }

  lemma {:induction false} SoleIsKept(items: seq<string>, key: string, x: string)
    requires Filter(items, HasKey(key)) == [x]
    ensures KeepFirst(items, key) == items
  {
    var rest := Filter(items[1..], HasKey(key));
    assert Filter(items, HasKey(key)) == if Occurs(key, items[0], 0) then [items[0]] + rest else rest;
    hide Filter;
    hide Occurs;
    if Occurs(key, items[0], 0) {
      Sole(items[0], rest, x);
      NothingElse(items[1..], key);
    } else {
      SoleIsKept(items[1..], key, x);
    }
  }

  lemma Sole(a: string, rest: seq<string>, x: string)
    requires [a] + rest == [x]
    ensures rest == []
  {
    assert |[a] + rest| == 1;
  }

  lemma SoleKeyed(items: seq<string>, key: string, x: string)
    requires Filter(items, HasKey(key)) == [x]
    ensures FirstKeyed(items, key, 0) < |items| && items[FirstKeyed(items, key, 0)] == x
            && KeepFirst(items, key) == items
  {
    SoleIsKept(items, key, x);
    var f, p := FirstKeyed(items, key, 0), HasKey(key);
    FirstKeyedIs(items, key, 0);
    FilterIn(items, p);
    hide Filter;
    hide FirstKeyed;
    hide KeepFirst;
    assert x in Filter(items, p);
    if f < |items| {
      assert p(items[f]) && items[f] in Filter(items, p);
    }
  }

  lemma SettledStays(items: seq<string>, x: string, op: SetOp)
    requires Settled(items, x) && op != Remove
    ensures MergeListItem(items, x, op) == items
  {
    if ':' in x {
      SoleKeyed(items, KeyOf(x), x);
    }
  }

  /** An item without a key that is there stays there. */
  lemma {:induction false} PlainStays(items: seq<string>, news: seq<string>, op: SetOp, x: string)
    requires op != Remove && ':' !in x && x != "" && (x in items || x in news)
    ensures x in MergeList(items, news, op)
  {
    if news != [] {
      var n := |news| - 1;
      var merged, y := MergeList(items, news[..n], op), news[n];
      if x in items || x in news[..n] {
        PlainStays(items, news[..n], op, x);
        if y != x && y != "" {
          PlainUntouched(x, y);
          StepLeaves(merged, y, op, Is(x));
          FilterIn(merged, Is(x));
          FilterIn(MergeListItem(merged, y, op), Is(x));
          assert x in Filter(merged, Is(x));
        }
      }
    }
  }

  lemma PlainUntouched(x: string, y: string)
    requires ':' !in x && x != y
    ensures !Touches(y, x)
  {
    if ':' in y && Occurs(KeyOf(y), x, 0) {
      KeyedHasColon(y, x);
    }
  }

  // ----- the plain list merge

  /** A comma-separated option and a value that does not go through the keyed merge. */
  predicate GoesPlain(kind: ListKind, newval: string) {
    CommaSeparated(kind) && !FlagList(kind) && !GoesKeyed(kind, newval)
  }

  lemma PlainMerge(kind: ListKind, nodup: bool, origval: string, newval: string, op: SetOp)
    requires GoesPlain(kind, newval)
    ensures var found, merged := FindDup(origval, newval, true, 0, 0), Merge(kind, nodup, origval, newval, op);
            && (op == Remove && found.Some? ==> merged == RemoveValue(kind, origval, found.value, |newval|))
            && (op == Remove && found.None? ==> merged == origval)
            && (op != Remove && nodup && found.Some? ==> merged == origval)
            && (op != Remove && !(nodup && found.Some?) ==> merged == ConcatWithComma(kind, origval, newval, op))
  {
    hide FindDup;
    hide ConcatWithComma;
    hide MergeEach;
  }

  lemma RemovalShortens(kind: ListKind, origval: string, newval: string, at: nat)
    requires CommaSeparated(kind) && at + |newval| <= |origval| && at < |origval| && newval != ""
    ensures |RemoveValue(kind, origval, at, |newval|)| < |origval|
  {
  }

  /** A prepended value is removed again, exactly unless it was already there and duplicates
      are denied. */
  lemma RemoveUndoesPrepend(kind: ListKind, nodup: bool, origval: string, newval: string)
    requires GoesPlain(kind, newval) && newval != ""
    ensures var t := Merge(kind, nodup, origval, newval, Prepend);
            Merge(kind, nodup, t, newval, Remove) == origval <==> !(nodup && FindDup(origval, newval, true, 0, 0).Some?)
  {
    var t := Merge(kind, nodup, origval, newval, Prepend);
    PlainMerge(kind, nodup, origval, newval, Prepend);
    PlainMerge(kind, nodup, t, newval, Remove);
    var found := FindDup(origval, newval, true, 0, 0);
    if nodup && found.Some? {
      RemovalShortens(kind, origval, newval, found.value);
    } else {
      PrependedIsFirst(kind, origval, newval);
      assert FindDup(t, newval, true, 0, 0) == Some(0);
    }
    hide Merge;
    hide FindDup;
  }

  lemma PrependedIsFirst(kind: ListKind, origval: string, newval: string)
    requires CommaSeparated(kind) && newval != ""
    ensures var t := ConcatWithComma(kind, origval, newval, Prepend);
            t != "" && DupHere(t, newval, true, 0, 0) && RemoveValue(kind, t, 0, |newval|) == origval
  {
  }

  /** A trailing comma that an append to an option without empty items swallows. */
  predicate Swallowed(kind: ListKind, origval: string) {
    && NoEmptyItems(kind) && |origval| > 1
    && origval[|origval| - 1] == ',' && origval[|origval| - 2] != '\\'
  }

  function Kept(kind: ListKind, origval: string): string {
    if Swallowed(kind, origval) then origval[..|origval| - 1] else origval
  }

  function Appended(kept: string, newval: string): string {
    if kept == "" then newval else kept + "," + newval
  }

  lemma AppendedParts(kind: ListKind, origval: string, newval: string)
    requires CommaSeparated(kind) && newval != ""
    ensures ConcatWithComma(kind, origval, newval, Append) == Appended(Kept(kind, origval), newval)
  {
  }

  lemma AppendedItems(kept: string, newval: string)
    requires CommaFree(newval)
    ensures Items(Appended(kept, newval)) == if kept == "" then [newval] else Items(kept) + [newval]
  {
    if kept == "" {
      JoinItems([newval]);
    } else {
      JoinConcat(Items(kept), [newval]);
      JoinItems(Items(kept) + [newval]);
    }
  }

  /** An append to a list without empty items goes on after a trailing comma, one to another list
      adds a comma of its own. */
  lemma TrailingComma(kind: ListKind, nodup: bool, s: string, newval: string)
    requires s != "" && s[|s| - 1] != '\\' && newval != "" && ':' !in newval && ',' !in newval
    requires nodup ==> FindDup(s + ",", newval, true, 0, 0).None?
    ensures kind.OneComma? || kind.OneCommaColon? ==> Merge(kind, nodup, s + ",", newval, Append) == s + "," + newval
    ensures kind.Comma? || kind.CommaColon? ==> Merge(kind, nodup, s + ",", newval, Append) == s + ",," + newval
  {
    if kind.OneComma? || kind.OneCommaColon? || kind.Comma? || kind.CommaColon? {
      PlainMerge(kind, nodup, s + ",", newval, Append);
      var n := |s + ","|;
      assert (s + ",")[n - 1] == ',' && (s + ",")[n - 2] == s[|s| - 1] && (s + ",")[..n - 1] == s;
      assert s + ",," == s + "," + ",";
    }
    hide Merge;
    hide FindDup;
  }

  // ----- what the search finds after an append

  lemma {:induction false} RunOfPrefix(s: string, t: string, n: nat)
    requires n <= |s|
    ensures Run(s + t, n) == Run(s, n)
  {
    if n > 0 {
      RunOfPrefix(s, t, n - 1);
    }
  }

  lemma BeginsInPrefix(s: string, t: string, i: nat)
    requires i <= |s|
    ensures Begins(s + t, i) <==> Begins(s, i)
  {
    if i > 0 {
      RunOfPrefix(s, t, i - 1);
    }
  }

  /** The new value is there from an item of the kept text on, over the comma added after it. */
  predicate Overlaps(kept: string, x: string) {
    exists i :: 0 <= i <= |kept| && DupAt(kept + "," + x, x, i)
  }

  lemma OverlapIsInside(kept: string, x: string, i: nat)
    requires i <= |kept| && CommaFree(x) && x != "" && DupAt(kept + "," + x, x, i)
    ensures i < |kept| && DupAt(kept, x, i)
  {
    var t := kept + "," + x;
    assert t == kept + ("," + x);
    BeginsInPrefix(kept, "," + x, i);
    hide Run;
    assert t[|kept|] == ',';
    NoCommaWithin(t, x, i);
    forall j | 0 <= j < |x|
      ensures kept[i + j] == x[j]
    {
      assert t[i + j] == x[j];
    }
  }

  /** An item without commas overlaps only where it is already. */
  lemma OverlapsIffThere(kept: string, x: string)
    requires CommaFree(x) && x != ""
    ensures Overlaps(kept, x) <==> FindDup(kept, x, true, 0, 0).Some?
  {
    FindDupFirst(kept, x);
    if Overlaps(kept, x) {
      var i :| 0 <= i <= |kept| && DupAt(kept + "," + x, x, i);
      OverlapIsInside(kept, x, i);
    }
    if FindDup(kept, x, true, 0, 0).Some? {
      ThereOverlaps(kept, x, FindDup(kept, x, true, 0, 0).value);
    }
  }

  lemma ThereOverlaps(kept: string, x: string, i: nat)
    requires i < |kept| && DupAt(kept, x, i)
    ensures DupAt(kept + "," + x, x, i)
  {
    assert kept + "," + x == kept + ("," + x);
    BeginsInPrefix(kept, "," + x, i);
    hide Run;
  }

  lemma EndIsDup(kept: string, x: string)
    requires x != "" && kept != ""
    ensures DupAt(kept + "," + x, x, |kept| + 1) <==> Run(kept, |kept|) % 2 == 0
  {
    RunOfPrefix(kept, "," + x, |kept|);
    assert kept + "," + x == kept + ("," + x);
    hide Run;
  }

  lemma OnlyEnd(kept: string, x: string, j: nat)
    requires x != "" && |kept| + 1 < j < |kept + "," + x|
    ensures !Occurs(x, kept + "," + x, j)
  {
  }

  /** An appended value is found again exactly if the comma before it separates, or it
      overlaps what was kept. */
  lemma AppendedIsFoundIff(kept: string, x: string)
    requires x != ""
    ensures FindDup(Appended(kept, x), x, true, 0, 0).Some?
            <==> kept == "" || Run(kept, |kept|) % 2 == 0 || Overlaps(kept, x)
  {
    var t := Appended(kept, x);
    FindDupFirst(t, x);
    if kept == "" {
      assert DupAt(t, x, 0);
    } else {
      EndIsDup(kept, x);
      forall j | |kept| + 1 < j < |t|
        ensures !DupAt(t, x, j)
      {
        OnlyEnd(kept, x, j);
      }
      hide DupAt;
      hide FindDup;
    }
  }

  /** Where an appended item that was not there is found, if it is. */
  lemma AppendedIsLast(kept: string, x: string)
    requires x != "" && CommaFree(x) && FindDup(kept, x, true, 0, 0).None?
    ensures FindDup(Appended(kept, x), x, true, 0, 0)
         == if kept == "" then Some(0) else if Run(kept, |kept|) % 2 == 0 then Some(|kept| + 1) else None
  {
    var t := Appended(kept, x);
    AppendedIsFoundIff(kept, x);
    OverlapsIffThere(kept, x);
    FindDupFirst(t, x);
    forall j | |kept| + 1 < j < |t| && kept != ""
      ensures !DupAt(t, x, j)
    {
      OnlyEnd(kept, x, j);
    }
    assert kept == "" ==> DupAt(t, x, 0);
    hide DupAt;
    hide FindDup;
    hide Run;
  }

  lemma RemoveLast(kind: ListKind, kept: string, newval: string)
    requires CommaSeparated(kind) && newval != ""
    ensures var t := Appended(kept, newval);
            RemoveValue(kind, t, if kept == "" then 0 else |kept| + 1, |newval|) == kept
  {
  }

  lemma KeptParts(kind: ListKind, origval: string)
    ensures var kept := Kept(kind, origval);
            && (kept == "" <==> origval == "")
            && (!Swallowed(kind, origval) ==> kept == origval)
            && (Swallowed(kind, origval) ==> origval == kept + ",")
  {
  }

  lemma KeptHasNoMore(kind: ListKind, origval: string, x: string)
    requires FindDup(origval, x, true, 0, 0).None?
    ensures FindDup(Kept(kind, origval), x, true, 0, 0).None?
  {
    var kept := Kept(kind, origval);
    KeptParts(kind, origval);
    FindDupFirst(origval, x);
    FindDupFirst(kept, x);
    forall j | 0 <= j < |kept| && Swallowed(kind, origval)
      ensures !DupAt(kept, x, j)
    {
      BeginsInPrefix(kept, ",", j);
      hide Run;
      assert !DupAt(kept + ",", x, j);
    }
    hide DupAt;
    hide FindDup;
    hide Kept;
    hide Swallowed;
  }

  /** An appended item that was not there is removed again, exactly unless the append swallowed
      a comma or an odd run of backslashes hides the item. */
  lemma RemoveUndoesAppend(kind: ListKind, nodup: bool, origval: string, newval: string)
    requires GoesPlain(kind, newval) && newval != "" && CommaFree(newval)
    requires FindDup(origval, newval, true, 0, 0).None?
    ensures var t := Merge(kind, nodup, origval, newval, Append);
            Merge(kind, nodup, t, newval, Remove) == origval
            <==> !Swallowed(kind, origval) && Run(origval, |origval|) % 2 == 0
  {
    hide *;
    var t, kept := Merge(kind, nodup, origval, newval, Append), Kept(kind, origval);
    PlainKind(kind, newval);
    PlainMerge(kind, nodup, origval, newval, Append);
    PlainMerge(kind, nodup, t, newval, Remove);
    AppendedParts(kind, origval, newval);
    KeptParts(kind, origval);
    KeptHasNoMore(kind, origval, newval);
    AppendedIsLast(kept, newval);
    RemoveLast(kind, kept, newval);
    NoRunOfNothing();
    AppendedIsLonger(kept, newval);
  }

  lemma NoRunOfNothing()
    ensures Run("", 0) == 0
  {
  }

  lemma AppendedIsLonger(kept: string, newval: string)
    requires newval != ""
    ensures |Appended(kept, newval)| > |kept| && (kept != "" ==> |Appended(kept, newval)| > |kept| + 1)
  {
  }

  lemma PlainKind(kind: ListKind, newval: string)
    requires GoesPlain(kind, newval)
    ensures CommaSeparated(kind)
  {
  }

  /** An item of the list is seen by the search. */
  predicate Sees(items: seq<string>, x: string) {
    exists k :: 0 <= k < |items| && items[k] == x && Seen(items, k)
  }

  lemma FoundIffSeen(origval: string, newval: string)
    requires CommaFree(newval) && newval != ""
    ensures FindDup(origval, newval, true, 0, 0).Some? <==> Sees(Items(origval), newval)
  {
    var items := Items(origval);
    FindDupIs(items, newval);
    FirstSeenIs(items, newval, 0);
    FoundAtIs(items, FirstSeen(items, newval, 0));
    hide FindDup;
    hide Items;
    hide FirstSeen;
    hide Seen;
  }

  /** Removing an item changes nothing exactly when the search sees none. */
  lemma RemoveIsNoOpIffAbsent(kind: ListKind, nodup: bool, origval: string, newval: string)
    requires GoesPlain(kind, newval) && CommaFree(newval) && newval != ""
    ensures Merge(kind, nodup, origval, newval, Remove) == origval <==> !Sees(Items(origval), newval)
  {
    PlainMerge(kind, nodup, origval, newval, Remove);
    FoundIffSeen(origval, newval);
    var found := FindDup(origval, newval, true, 0, 0);
    if found.Some? {
      RemovalShortens(kind, origval, newval, found.value);
    }
  }

  // ----- adding a value twice

  lemma ConcatGrows(kind: ListKind, once: string, newval: string, op: SetOp)
    requires newval != "" && op != Remove
    ensures |ConcatWithComma(kind, once, newval, op)| > |once|
  {
  }

  /** Adding a value when it is found, and only then, leaves the text as it is. */
  lemma AddsNothingIff(kind: ListKind, once: string, newval: string, op: SetOp)
    requires GoesPlain(kind, newval) && op != Remove && newval != ""
    ensures Merge(kind, true, once, newval, op) == once <==> FindDup(once, newval, true, 0, 0).Some?
  {
    PlainMerge(kind, true, once, newval, op);
    ConcatGrows(kind, once, newval, op);
  }

  lemma NothingIsAdded(kind: ListKind, origval: string, op: SetOp)
    requires GoesPlain(kind, "") && op != Remove
    ensures Merge(kind, true, origval, "", op) == origval
  {
    PlainMerge(kind, true, origval, "", op);
    assert ConcatWithComma(kind, origval, "", op) == origval;
  }

  /** With duplicates denied, adding a value twice is adding it once, exactly unless it is
      appended after a comma that an odd run of backslashes hides and overlaps nothing. */
  lemma AddingTwiceIff(kind: ListKind, origval: string, newval: string, op: SetOp)
    requires GoesPlain(kind, newval) && op != Remove
    ensures var once, kept := Merge(kind, true, origval, newval, op), Kept(kind, origval);
            Merge(kind, true, once, newval, op) == once
            <==> || op == Prepend || newval == "" || FindDup(origval, newval, true, 0, 0).Some?
                 || Run(kept, |kept|) % 2 == 0 || Overlaps(kept, newval)
  {
    hide *;
    PlainKind(kind, newval);
    if newval == "" {
      NothingIsAdded(kind, origval, op);
    } else {
      var once, kept := Merge(kind, true, origval, newval, op), Kept(kind, origval);
      PlainMerge(kind, true, origval, newval, op);
      AddsNothingIff(kind, once, newval, op);
      NoRunOfNothing();
      if op == Prepend {
        PrependedIsFound(kind, origval, newval);
      } else {
        AppendedParts(kind, origval, newval);
        AppendedIsFoundIff(kept, newval);
      }
    }
  }

  lemma PrependedIsFound(kind: ListKind, origval: string, newval: string)
    requires CommaSeparated(kind) && newval != ""
    ensures FindDup(ConcatWithComma(kind, origval, newval, Prepend), newval, true, 0, 0).Some?
  {
    PrependedIsFirst(kind, origval, newval);
  }

  /** For one item: exactly unless it is appended, new, after an odd run of backslashes. */
  lemma AddingItemTwiceIff(kind: ListKind, origval: string, newval: string, op: SetOp)
    requires GoesPlain(kind, newval) && op != Remove && CommaFree(newval)
    ensures var once, kept := Merge(kind, true, origval, newval, op), Kept(kind, origval);
            Merge(kind, true, once, newval, op) == once
            <==> || op == Prepend || newval == "" || origval == ""
                 || FindDup(origval, newval, true, 0, 0).Some? || Run(kept, |kept|) % 2 == 0
  {
    hide *;
    var kept := Kept(kind, origval);
    AddingTwiceIff(kind, origval, newval, op);
    KeptParts(kind, origval);
    NoRunOfNothing();
    if newval != "" && FindDup(origval, newval, true, 0, 0).None? {
      OverlapsIffThere(kept, newval);
      KeptHasNoMore(kind, origval, newval);
    }
  }

  lemma {:induction false} NoRunWithout(s: string, n: nat)
    requires NoBackslash(s) && n <= |s|
    ensures Run(s, n) == 0
  {
  }

  /** Without backslashes in the option's value it always is. */
  lemma AddingTwiceIsAddingOnce(kind: ListKind, origval: string, newval: string, op: SetOp)
    requires GoesPlain(kind, newval) && op != Remove && NoBackslash(origval)
    ensures var once := Merge(kind, true, origval, newval, op); Merge(kind, true, once, newval, op) == once
  {
    var kept := Kept(kind, origval);
    assert NoBackslash(kept);
    NoRunWithout(kept, |kept|);
    hide Merge;
    hide FindDup;
    AddingTwiceIff(kind, origval, newval, op);
  }

  /** The same of one item without a key in a keyed merge. */
  lemma MergingItemTwiceIff(s: string, x: string, op: SetOp)
    requires op != Remove && CommaFree(x) && x != "" && ':' !in x
    ensures var once := MergeItem(s, x, op);
            MergeItem(once, x, op) == once
            <==> op == Prepend || s == "" || FindDup(s, x, true, 0, 0).Some? || Run(s, |s|) % 2 == 0
  {
    var once := MergeItem(s, x, op);
    assert FindDup(once, x, true, 0, 0).None? ==> |MergeItem(once, x, op)| > |once|;
    if FindDup(s, x, true, 0, 0).None? {
      OverlapsIffThere(s, x);
      AppendedIsFoundIff(s, x);
      assert once == if op == Prepend && s != "" then x + "," + s else Appended(s, x);
      if op == Prepend && s != "" {
        FindDupFirst(once, x);
        assert DupAt(once, x, 0);
      }
    }
    hide FindDup;
    hide Run;
    hide Overlaps;
  }

  /** A backslash at the end of the value hides what is appended, which the next merge appends
      again. */
  lemma BackslashHides()
    ensures Merge(Comma, true, "a\\", "b", Append) == "a\\,b" && Merge(Comma, true, "a\\,b", "b", Append) == "a\\,b,b"
  {
    var s, once := "a\\", "a\\,b";
    assert s[1] == '\\' && Run(s, 2) == Run(s, 1) + 1 && Run(s, 1) == 0;
    assert "b"[0] == 'b' && s[0] == 'a';
    FindDupFirst(s, "b");
    assert FindDup(s, "b", true, 0, 0).None?;
    PlainMerge(Comma, true, s, "b", Append);
    AppendedParts(Comma, s, "b");
    assert Appended(s, "b") == once && Appended(once, "b") == "a\\,b,b";
    AddingItemTwiceIff(Comma, s, "b", Append);
    PlainMerge(Comma, true, once, "b", Append);
    AppendedParts(Comma, once, "b");
    AddsNothingIff(Comma, once, "b", Append);
    hide FindDup;
    hide ConcatWithComma;
    hide Merge;
  }

  // ----- an item without a key is removed once per mention

  lemma RemovedOne(items: seq<string>, f: nat, x: string)
    requires f < |items| && items[f] == x && x != ""
    ensures |Filter(RemoveAt(items, f), Is(x))| == |Filter(items, Is(x))| - 1
  {
    var l, r, p := items[..f], items[f + 1..], Is(x);
    assert items == l + ([x] + r);
    assert Filter([x], p) == [x] && Filter([""], p) == [];
    assert |items| == 1 ==> l + r == [];
    hide Filter;
    FilterConcat(l, [x] + r, p);
    FilterConcat([x], r, p);
    FilterConcat(l, r, p);
  }

  /** No item ends in an odd run of backslashes, wherever it comes to stand. */
  predicate HidesNothing(items: seq<string>) {
    forall y :: y in items ==> EndRun(y, true) % 2 == 0 && EndRun(y, false) % 2 == 0
  }

  lemma HiddenByNothing(items: seq<string>, x: string)
    requires HidesNothing(items)
    ensures FirstSeen(items, x, 0) < |items| <==> x in items
  {
    if x in items {
      var k :| 0 <= k < |items| && items[k] == x;
      assert k > 0 ==> items[k - 1] in items;
      assert Seen(items, k);
      FirstSeenIs(items, x, 0);
    }
  }

  lemma RemovalHidesNothing(items: seq<string>, x: string)
    requires HidesNothing(items)
    ensures HidesNothing(MergeListItem(items, x, Remove))
  {
    FilterIn(items, LacksKey(if ':' in x then KeyOf(x) else x));
    hide Filter;
    assert forall y :: y in MergeListItem(items, x, Remove) ==> y in items || y == "";
  }

  lemma {:induction false} MentionsRemove(items: seq<string>, news: seq<string>, x: string)
    requires ':' !in x && x != "" && HidesNothing(items)
    ensures HidesNothing(MergeList(items, news, Remove))
    ensures var there, named, left :=
            |Filter(items, Is(x))|, |Filter(news, Is(x))|, |Filter(MergeList(items, news, Remove), Is(x))|;
            left == if named <= there then there - named else 0
  {
    if news != [] {
      var n := |news| - 1;
      var merged, y := MergeList(items, news[..n], Remove), news[n];
      MentionsRemove(items, news[..n], x);
      assert news == news[..n] + [y];
      FilterConcat(news[..n], [y], Is(x));
      assert Filter([y], Is(x)) == if y == x then [y] else [];
      RemovalHidesNothing(merged, y);
      hide HidesNothing;
      if y == x {
        MentionStep(merged, x);
      } else if y != "" {
        PlainUntouched(x, y);
        StepLeaves(merged, y, Remove, Is(x));
      }
      hide Filter;
      hide MergeListItem;
    }
  }

  lemma MentionStep(items: seq<string>, x: string)
    requires ':' !in x && x != "" && HidesNothing(items)
    ensures var there := |Filter(items, Is(x))|;
            |Filter(MergeListItem(items, x, Remove), Is(x))| == if there > 0 then there - 1 else 0
  {
    var f := FirstSeen(items, x, 0);
    HiddenByNothing(items, x);
    if f < |items| {
      RemovedOne(items, f, x);
      FilterIn(items, Is(x));
      assert x in Filter(items, Is(x));
    } else {
      FilterNone(items, Is(x));
    }
  }

  /** Each mention removes one occurrence, as long as there is one. */
  lemma EachMentionRemovesOne(kind: ListKind, nodup: bool, origval: string, newval: string, x: string)
    requires GoesKeyed(kind, newval) && HidesNothing(Items(origval)) && ':' !in x && x != ""
    ensures var there, named := |Filter(Items(origval), Is(x))|, |Filter(Items(newval), Is(x))|;
            |Filter(Items(Merge(kind, nodup, origval, newval, Remove)), Is(x))|
            == if named <= there then there - named else 0
  {
    MergeIsList(kind, nodup, origval, newval, Remove);
    MentionsRemove(Items(origval), Items(newval), x);
  }

  // ----- where one merged item lands

  function Put(op: SetOp, a: seq<string>, b: seq<string>): seq<string> {
    if op == Prepend then b + a else a + b
  }

  /** The new value is left where it is: first with its key, or found and denied. */
  predicate InPlace(kind: ListKind, nodup: bool, origval: string, newval: string) {
    if Keyed(kind) && ':' in newval then
      var items := Items(origval);
      var f := FirstKeyed(items, KeyOf(newval), 0);
      f < |items| && items[f] == newval
    else nodup && Sees(Items(origval), newval)
  }

  /** The items a new one is put beside: those without its key, or all that an append keeps. */
  function Beside(kind: ListKind, origval: string, newval: string, op: SetOp): seq<string> {
    var items :=
      if Keyed(kind) && ':' in newval then Filter(Items(origval), LacksKey(KeyOf(newval)))
      else if op == Append then Items(Kept(kind, origval))
      else Items(origval);
    if items == [""] then [] else items
  }

  lemma KeyedLands(items: seq<string>, x: string, op: SetOp)
    requires items != [] && ':' in x && op != Remove
    requires var f := FirstKeyed(items, KeyOf(x), 0); !(f < |items| && items[f] == x)
    ensures var left := Filter(items, LacksKey(KeyOf(x)));
            MergeListItem(items, x, op) == Put(op, if left == [""] then [] else left, [x])
  {
    var key := KeyOf(x);
    FirstKeyedIs(items, key, 0);
    if FirstKeyed(items, key, 0) == |items| {
      FilterAll(items, LacksKey(key));
    }
  }

  lemma PlainLands(kind: ListKind, origval: string, x: string, op: SetOp)
    requires CommaSeparated(kind) && x != "" && CommaFree(x) && op != Remove
    ensures var items := Items(if op == Append then Kept(kind, origval) else origval);
            Items(ConcatWithComma(kind, origval, x, op)) == Put(op, if items == [""] then [] else items, [x])
  {
    if op == Append {
      var kept := Kept(kind, origval);
      AppendedParts(kind, origval, x);
      AppendedItems(kept, x);
      EmptyText(kept);
    } else {
      EmptyText(origval);
      if origval == "" {
        assert x + "" + "" == x && [x] + [] == [x];
        JoinItems([x]);
      } else {
        JoinConcat([x], Items(origval));
        JoinItems([x] + Items(origval));
      }
    }
  }

  lemma EmptyText(s: string)
    ensures Items(s) == [""] <==> s == ""
  {
    JoinItems([""]);
  }

  /** A new item that is not left in place is put last by an append and first by a prepend,
      beside everything that has not its key. */
  lemma NewItemLands(kind: ListKind, nodup: bool, origval: string, newval: string, op: SetOp)
    requires CommaSeparated(kind) && !FlagList(kind) && op != Remove && CommaFree(newval) && newval != ""
    requires !InPlace(kind, nodup, origval, newval)
    ensures Items(Merge(kind, nodup, origval, newval, op)) == Put(op, Beside(kind, origval, newval, op), [newval])
  {
    if Keyed(kind) && ':' in newval {
      MergeIsList(kind, nodup, origval, newval, op);
      JoinItems([newval]);
      KeyedLands(Items(origval), newval, op);
      OneNew(Items(origval), newval, op);
      hide Merge;
      hide MergeListItem;
      hide Items;
    } else {
      PlainMerge(kind, nodup, origval, newval, op);
      FoundIffSeen(origval, newval);
      PlainLands(kind, origval, newval, op);
      hide Merge;
      hide Items;
      hide ConcatWithComma;
      hide FindDup;
    }
  }

  lemma OneNew(items: seq<string>, x: string, op: SetOp)
    requires x != ""
    ensures MergeList(items, [x], op) == MergeListItem(items, x, op)
  {
    assert [x][..0] == [];
    assert MergeList(items, [], op) == items;
  }

  // ----- flags

  lemma {:induction false} KeepLastSame(s: string, commas: bool)
    ensures forall c :: c in KeepLast(s, commas) <==> c in s
  {
    if s != "" {
      KeepLastSame(s[1..], commas);
      assert s == [s[0]] + s[1..];
    }
  }

  /** No flag occurs twice. */
  predicate NoRepeats(s: string, commas: bool) {
    forall i, j :: 0 <= i < j < |s| && s[i] == s[j] ==> commas && s[i] == ','
  }

  lemma {:induction false} KeepLastNoRepeats(s: string, commas: bool)
    ensures NoRepeats(KeepLast(s, commas), commas)
  {
    if s != "" {
      var rest := KeepLast(s[1..], commas);
      KeepLastNoRepeats(s[1..], commas);
      KeepLastSame(s[1..], commas);
      if !((!commas || s[0] != ',') && s[0] in s[1..]) {
        assert forall j :: 0 <= j < |rest| ==> rest[j] in s[1..];
      }
    }
  }

  lemma {:induction false} FoundOccurs(s: string, x: string, comma: bool, index: nat, backslashes: nat)
    requires index <= |s| && FindDup(s, x, comma, index, backslashes).Some?
    ensures forall c :: c in x ==> c in s
    decreases |s| - index
  {
    if DupHere(s, x, comma, index, backslashes) {
      forall c | c in x
        ensures c in s
      {
        var j :| 0 <= j < |x| && x[j] == c;
        assert s[index + j] == c;
      }
    } else {
      FoundOccurs(s, x, comma, index + 1, Backslashes(s, index, backslashes));
    }
  }

  /** Adding flags gives each flag of either value once and no other; only the commas of a
      comma-separated flag option may repeat. */
  lemma FlagsUnite(kind: ListKind, nodup: bool, origval: string, newval: string, op: SetOp)
    requires FlagList(kind) && op != Remove
    ensures var merged := Merge(kind, nodup, origval, newval, op);
            && NoRepeats(merged, CommaSeparated(kind))
            && forall c :: (c in merged || c == ',') <==> (c in origval || c in newval || c == ',')
    ensures kind.Flags? ==> forall c :: c in Merge(kind, nodup, origval, newval, op) <==> c in origval || c in newval
  {
    var commas := CommaSeparated(kind);
    var found := if nodup then FindDup(origval, newval, commas, 0, 0) else None;
    var joined := if found.Some? then origval else ConcatWithComma(kind, origval, newval, op);
    assert Merge(kind, nodup, origval, newval, op) == KeepLast(joined, commas);
    if found.Some? {
      FoundOccurs(origval, newval, commas, 0, 0);
    }
    KeepLastSame(joined, commas);
    KeepLastNoRepeats(joined, commas);
    hide KeepLast;
    hide FindDup;
  }
}
