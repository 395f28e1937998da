/** What merging means on the list of items.

    The code searches and edits a text at offsets. On every text each search finds the first
    item of the list that it sees, each edit changes the list, and the whole merge of a new
    value is a fold over its items; which items a search sees depends on backslashes, as
    `OptionSearch` says. Then the laws of that fold: what an item's merge leaves alone, and that
    keys behave like the keys of a map. */
module OptionLaws {
  import opened Wrappers
  import opened CommaItems
  import opened OptionMerge
  import opened OptionSearch

  predicate NoBackslash(s: string) {
    forall i :: 0 <= i < |s| ==> s[i] != '\\'
  }

  predicate Clean(items: seq<string>) {
    forall k :: 0 <= k < |items| ==> CommaFree(items[k]) && NoBackslash(items[k])
  }

  lemma {:induction false} NoRun(y: string, first: bool)
    requires NoBackslash(y)
    ensures EndRun(y, first) == 0
  {
  }

  /** Without backslashes every item is seen. */
  lemma {:induction false} CleanSees(items: seq<string>, x: string)
    requires Clean(items) && x in items
    ensures FirstSeen(items, x, 0) < |items|
  {
    var k :| 0 <= k < |items| && items[k] == x;
    if k > 0 {
      NoRun(items[k - 1], k == 1);
    }
    assert Seen(items, k);
    FirstSeenIs(items, x, 0);
  }

  // ----- the merge of a list of items

  function MergeListItem(items: seq<string>, x: string, op: SetOp): seq<string> {
    if ':' in x then MergeKeyedItem(items, x, op)
    else
      var f := FirstSeen(items, x, 0);
      if op == Remove then if f < |items| then RemoveAt(items, f) else items
      else if f < |items| then items
      else InsertList(items, x, op)
  }

  function MergeList(items: seq<string>, news: seq<string>, op: SetOp): seq<string> {
    if news == [] then items
    else
      var merged, x := MergeList(items, news[..|news| - 1], op), news[|news| - 1];
      if x == "" then merged else MergeListItem(merged, x, op)
  }

  lemma {:induction false} CleanJoin(items: seq<string>)
    requires Clean(items)
    ensures NoBackslash(Join(items))
  {
    if |items| > 1 {
      assert Clean(items[1..]);
      CleanJoin(items[1..]);
      assert NoBackslash(items[0]);
    }
  }

  lemma {:induction false} CleanItems(s: string)
    requires NoBackslash(s)
    ensures Clean(Items(s))
    decreases |s|
  {
    var n := FirstComma(s);
    assert NoBackslash(s[..n]) && CommaFree(s[..n]);
    if n == |s| {
      assert s[..n] == s;
    } else {
      assert NoBackslash(s[n + 1..]);
      CleanItems(s[n + 1..]);
    }
  }

  lemma {:induction false} KeepFirstFrom(items: seq<string>, key: string)
    ensures forall y :: y in KeepFirst(items, key) ==> y in items
  {
    if items != [] {
      KeepFirstFrom(items[1..], key);
      FilterIn(items[1..], LacksKey(key));
      assert forall y :: y in items[1..] ==> y in items;
    }
  }

  /** A merge brings in no item but the merged one, and an empty one when nothing is left. */
  lemma KeyedFrom(items: seq<string>, x: string, op: SetOp)
    requires ':' in x && items != []
    ensures var merged := MergeKeyedItem(items, x, op);
            merged != [] && forall y :: y in merged ==> y in items || y == x || y == ""
  {
    var key := KeyOf(x);
    FilterIn(items, LacksKey(key));
    KeepFirstFrom(items, key);
    assert KeepFirst(items, key) != [];
    hide Filter;
    hide KeepFirst;
  }

  lemma MergedFrom(items: seq<string>, x: string, op: SetOp)
    requires items != []
    ensures var merged := MergeListItem(items, x, op);
            merged != [] && forall y :: y in merged ==> y in items || y == x || y == ""
  {
    if ':' in x {
      KeyedFrom(items, x, op);
    }
  }

  lemma CommaFreeFrom(items: seq<string>, x: string, merged: seq<string>)
    requires AllCommaFree(items) && CommaFree(x) && forall y :: y in merged ==> y in items || y == x || y == ""
    ensures AllCommaFree(merged)
  {
    forall k | 0 <= k < |merged|
      ensures CommaFree(merged[k])
    {
      assert merged[k] in merged;
    }
  }

  lemma CleanMerged(items: seq<string>, x: string, op: SetOp)
    requires items != [] && Clean(items) && CommaFree(x) && NoBackslash(x)
    ensures MergeListItem(items, x, op) != [] && Clean(MergeListItem(items, x, op))
  {
    var merged := MergeListItem(items, x, op);
    MergedFrom(items, x, op);
    hide MergeListItem;
    forall k | 0 <= k < |merged|
      ensures CommaFree(merged[k]) && NoBackslash(merged[k])
    {
      assert merged[k] in merged;
    }
  }

  lemma MergedCommaFree(items: seq<string>, x: string, op: SetOp)
    requires items != [] && AllCommaFree(items) && CommaFree(x)
    ensures MergeListItem(items, x, op) != [] && AllCommaFree(MergeListItem(items, x, op))
  {
    MergedFrom(items, x, op);
    hide MergeListItem;
    CommaFreeFrom(items, x, MergeListItem(items, x, op));
  }

  /** One item merged into the text is that item merged into the list. */
  lemma MergeItemIs(items: seq<string>, x: string, op: SetOp)
    requires items != [] && AllCommaFree(items) && CommaFree(x) && x != ""
    ensures MergeItem(Join(items), x, op) == Join(MergeListItem(items, x, op))
  {
    JoinItems(items);
    if ':' !in x {
      FindDupIs(items, x);
      InsertIs(items, x, op);
      var f := FirstSeen(items, x, 0);
      if f < |items| {
        RemoveCommaItemIs(items, f);
      }
      hide Join;
      hide FindDup;
      hide InsertItem;
      hide InsertList;
      hide RemoveCommaItem;
      hide FirstSeen;
    }
  }

  /** The whole text merge is the list merge. */
  lemma {:induction false} MergeEachIs(s: string, news: seq<string>, op: SetOp)
    requires AllCommaFree(news)
    ensures MergeList(Items(s), news, op) != [] && AllCommaFree(MergeList(Items(s), news, op))
    ensures MergeEach(s, news, op) == Join(MergeList(Items(s), news, op))
    ensures Items(MergeEach(s, news, op)) == MergeList(Items(s), news, op)
  {
    if news != [] {
      var n := |news| - 1;
      MergeEachIs(s, news[..n], op);
      var merged, x := MergeList(Items(s), news[..n], op), news[n];
      ItemCommaFree(news, n);
      hide Items;
      hide Join;
      hide MergeItem;
      if x != "" {
        MergedCommaFree(merged, x, op);
        MergeItemIs(merged, x, op);
        JoinItems(MergeListItem(merged, x, op));
      }
      hide MergeListItem;
    }
  }

  lemma {:induction false} CleanMerge(items: seq<string>, news: seq<string>, op: SetOp)
    requires items != [] && Clean(items) && Clean(news)
    ensures MergeList(items, news, op) != [] && Clean(MergeList(items, news, op))
  {
    if news != [] {
      var n := |news| - 1;
      CleanMerge(items, news[..n], op);
      assert CommaFree(news[n]) && NoBackslash(news[n]);
      CleanMerged(MergeList(items, news[..n], op), news[n], op);
    }
  }

  // ----- what a merged item leaves alone

  /** Merging x may move, replace or drop the items it touches: those with its key, or, if
      it has none, those equal to it. */
  predicate Touches(x: string, y: string) {
    if ':' in x then Occurs(KeyOf(x), y, 0) else y == x
  }

  lemma {:induction false} FilterKeepFirst(items: seq<string>, key: string, p: string -> bool)
    requires forall y :: p(y) ==> !Occurs(key, y, 0)
    ensures Filter(KeepFirst(items, key), p) == Filter(items, p)
  {
    if items != [] {
      if Occurs(key, items[0], 0) {
        FilterTwice(items[1..], p, LacksKey(key));
      } else {
        FilterKeepFirst(items[1..], key, p);
      }
    }
  }

  lemma FilterDropKey(items: seq<string>, key: string, p: string -> bool)
    requires !p("") && forall y :: p(y) ==> !Occurs(key, y, 0)
    ensures Filter(DropKey(items, key), p) == Filter(items, p)
  {
    FilterTwice(items, p, LacksKey(key));
    FilterNormal(Filter(items, LacksKey(key)), p);
  }

  lemma FilterInsert(items: seq<string>, x: string, op: SetOp, p: string -> bool)
    requires !p("")
    ensures Filter(InsertList(items, x, op), p)
         == if !p(x) then Filter(items, p) else if op == Prepend then [x] + Filter(items, p) else Filter(items, p) + [x]
  {
    FilterConcat([x], items, p);
    FilterConcat(items, [x], p);
    assert Filter([x], p) == if p(x) then [x] else [];
    assert Filter([""], p) == [];
  }

  lemma KeyedLeaves(items: seq<string>, x: string, op: SetOp, p: string -> bool)
    requires ':' in x && !p("") && forall y :: p(y) ==> !Occurs(KeyOf(x), y, 0)
    ensures Filter(MergeKeyedItem(items, x, op), p) == Filter(items, p)
  {
    hide *;
    var key := KeyOf(x);
    assert !p(x);
    MergedOnKey(items, x, op);
    FilterKeepFirst(items, key, p);
    FilterDropKey(items, key, p);
    FilterInsert(items, x, op, p);
    FilterInsert(DropKey(items, key), x, op, p);
  }

  /** What a test selects that picks nothing the merged item touches stays as it was. */
  lemma StepLeaves(items: seq<string>, x: string, op: SetOp, p: string -> bool)
    requires !p("") && forall y :: p(y) ==> !Touches(x, y)
    ensures Filter(MergeListItem(items, x, op), p) == Filter(items, p)
  {
    if ':' in x {
      assert forall y :: p(y) ==> !Occurs(KeyOf(x), y, 0) by {
        forall y | p(y)
          ensures !Occurs(KeyOf(x), y, 0)
        {
          assert !Touches(x, y);
        }
      }
      KeyedLeaves(items, x, op, p);
    } else {
      assert Touches(x, x);
      var f := FirstSeen(items, x, 0);
      if f < |items| {
        FilterRemoved(items, f, p);
      }
      FilterInsert(items, x, op, p);
    }
    hide Filter;
    hide InsertList;
    hide MergeKeyedItem;
    hide FirstSeen;
    hide RemoveAt;
    hide Occurs;
    hide KeyOf;
  }

  lemma {:induction false} MergeLeaves(items: seq<string>, news: seq<string>, op: SetOp, p: string -> bool)
    requires !p("") && forall k, y :: 0 <= k < |news| && p(y) ==> !Touches(news[k], y)
    ensures Filter(MergeList(items, news, op), p) == Filter(items, p)
  {
    hide Touches;
    hide MergeListItem;
    if news != [] {
      var n := |news| - 1;
      MergeLeaves(items, news[..n], op, p);
      StepLeaves(MergeList(items, news[..n], op), news[n], op, p);
    }
  }

  // ----- keys behave as the keys of a map

  lemma FilterBoth(items: seq<string>, key: string)
    ensures Filter(Filter(items, LacksKey(key)), HasKey(key)) == []
  {
    FilterIn(items, LacksKey(key));
    FilterNone(Filter(items, LacksKey(key)), HasKey(key));
  }

  lemma DropKeyDrops(items: seq<string>, key: string)
    requires key != ""
    ensures Filter(DropKey(items, key), HasKey(key)) == []
  {
    FilterBoth(items, key);
    FilterNormal(Filter(items, LacksKey(key)), HasKey(key));
  }

  lemma {:induction false} KeepFirstKeepsOne(items: seq<string>, key: string, k: nat)
    requires k < |items| && FirstKeyed(items, key, 0) == k
    ensures Filter(KeepFirst(items, key), HasKey(key)) == [items[k]]
  {
    FirstKeyedIs(items, key, 0);
    KeepFirstIs(items, key, k);
    var l, r := items[..k + 1], Filter(items[k + 1..], LacksKey(key));
    FilterBoth(items[k + 1..], key);
    FilterConcat(l, r, HasKey(key));
    assert l == items[..k] + [items[k]];
    FilterConcat(items[..k], [items[k]], HasKey(key));
    FilterNone(items[..k], HasKey(key));
    assert Filter([items[k]], HasKey(key)) == [items[k]];
  }

  /** After `x` is merged by an append or a prepend, it is the only item with its key. */
  lemma KeyedStep(items: seq<string>, x: string, op: SetOp)
    requires ':' in x && op != Remove
    ensures Filter(MergeKeyedItem(items, x, op), HasKey(KeyOf(x))) == [x]
  {
    var key := KeyOf(x);
    var f, p := FirstKeyed(items, key, 0), HasKey(key);
    assert p(x) && !p("");
    FirstKeyedIs(items, key, 0);
    if f == |items| {
      FilterInsert(items, x, op, p);
      FilterNone(items, p);
    } else if items[f] == x {
      KeepFirstKeepsOne(items, key, f);
    } else {
      FilterInsert(DropKey(items, key), x, op, p);
      DropKeyDrops(items, key);
    }
    hide Filter;
    hide InsertList;
    hide DropKey;
    hide KeepFirst;
    hide FirstKeyed;
  }

  /** A text has one key: prefixes ending in their first colon agree. */
  lemma OneKey(a: string, b: string, y: string)
    requires ':' in a && ':' in b && Occurs(KeyOf(a), y, 0) && Occurs(KeyOf(b), y, 0)
    ensures KeyOf(a) == KeyOf(b)
  {
    var m, n := FirstColon(a), FirstColon(b);
    KeyChars(a);
    KeyChars(b);
    assert m <= n ==> KeyOf(b)[m] == y[0 + m];
    assert n <= m ==> KeyOf(a)[n] == y[0 + n];
    assert KeyOf(a)[m] == y[0 + m] && KeyOf(b)[n] == y[0 + n];
    assert m == n;
    assert forall j :: 0 <= j <= m ==> KeyOf(a)[j] == y[0 + j];
    assert forall j :: 0 <= j <= m ==> KeyOf(b)[j] == y[0 + j];
  }

  lemma KeyChars(a: string)
    requires ':' in a
    ensures var n := FirstColon(a);
            |KeyOf(a)| == n + 1 && KeyOf(a)[n] == ':' && forall j :: 0 <= j < n ==> KeyOf(a)[j] != ':'
  {
    var n := FirstColon(a);
    forall j | 0 <= j < n
      ensures KeyOf(a)[j] != ':'
    {
      assert a[..n][j] == KeyOf(a)[j];
    }
  }

  lemma KeyedHasColon(a: string, y: string)
    requires ':' in a && Occurs(KeyOf(a), y, 0)
    ensures ':' in y
  {
    var m := FirstColon(a);
    assert KeyOf(a)[m] == y[0 + m];
  }

  /** The last item of a list with a key. */
  function LastWith(news: seq<string>, key: string): Option<string> {
    if news == [] then None
    else
      var x := news[|news| - 1];
      if Occurs(key, x, 0) then Some(x) else LastWith(news[..|news| - 1], key)
  }

  function ToSeq(x: Option<string>): seq<string> {
    if x.Some? then [x.value] else []
  }

  lemma OtherKey(x: string, key: string, a: string)
    requires ':' in a && key == KeyOf(a) && !Occurs(key, x, 0)
    ensures forall y :: HasKey(key)(y) ==> !Touches(x, y)
  {
    forall y | Occurs(key, y, 0)
      ensures !Touches(x, y)
    {
      if ':' in x && Occurs(KeyOf(x), y, 0) {
        OneKey(a, x, y);
      }
    }
  }

  /** The items with a key that the new value names: exactly its last occurrence there. */
  lemma {:induction false} MergedKey(items: seq<string>, news: seq<string>, op: SetOp, a: string)
    requires ':' in a && op != Remove && LastWith(news, KeyOf(a)).Some?
    ensures Filter(MergeList(items, news, op), HasKey(KeyOf(a))) == ToSeq(LastWith(news, KeyOf(a)))
  {
    var n, key := |news| - 1, KeyOf(a);
    var merged, x := MergeList(items, news[..n], op), news[n];
    if Occurs(key, x, 0) {
      KeyedHasColon(a, x);
      OneKey(a, x, x);
      KeyedStep(merged, x, op);
    } else {
      MergedKey(items, news[..n], op, a);
      OtherKey(x, key, a);
      StepLeaves(merged, x, op, HasKey(key));
    }
    hide Filter;
    hide MergeListItem;
    hide KeyOf;
    hide Occurs;
  }

  /** Removal leaves no item with a key that the new value names. */
  lemma {:induction false} RemovedKey(items: seq<string>, news: seq<string>, k: nat)
    requires k < |news| && ':' in news[k]
    ensures Filter(MergeList(items, news, Remove), HasKey(KeyOf(news[k]))) == []
  {
    var n, key := |news| - 1, KeyOf(news[k]);
    var merged, x := MergeList(items, news[..n], Remove), news[n];
    if k == n {
      DropKeyDrops(merged, key);
    } else {
      RemovedKey(items, news[..n], k);
      if Occurs(key, x, 0) {
        KeyedHasColon(news[k], x);
        OneKey(news[k], x, x);
        DropKeyDrops(merged, key);
      } else {
        OtherKey(x, key, news[k]);
        StepLeaves(merged, x, Remove, HasKey(key));
      }
    }
    hide Filter;
    hide DropKey;
    hide KeyOf;
    hide Occurs;
  }
}
