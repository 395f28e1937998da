/** The runtime search path: how it is built from 'runtimepath' and 'packpath', and its
    cache. The filesystem is a fixed function from patterns to the paths they expand to. */
module SearchPath {
  import opened Wrappers
  import opened CommaItems

  datatype Item = Item(path: string, after: bool)

  type Expand = string -> seq<string>

  predicate PathIsAfter(entry: string) {
    var n := |entry|;
    n >= 5 && entry[n - 5..] == "after" && (n == 5 || entry[n - 6] == '/')
  }

  // ----- what is visited, in order

  datatype Visit = Visit(pattern: string, after: bool)

  /** The number of entries before the first `after` entry. */
  function Tail(entries: seq<string>): (n: nat)
    ensures n <= |entries|
  {
    if entries == [] || PathIsAfter(entries[0]) then 0 else 1 + Tail(entries[1..])
  }

  /** The start bundles below a 'packpath' entry. */
  function Bundles(pack: string): seq<string> {
    [pack + "/pack/*/start/*", pack + "/start/*"]
  }

  function AllBundles(packs: seq<string>): seq<string> {
    if packs == [] then [] else Bundles(packs[0]) + AllBundles(packs[1..])
  }

  /** The packs of the entries before the tail, as they come. */
  function Spliced(head: seq<string>, packs: seq<string>): seq<string> {
    if head == [] then [] else (if head[0] in packs then [head[0]] else []) + Spliced(head[1..], packs)
  }

  function Others(packs: seq<string>, head: seq<string>): seq<string> {
    if packs == [] then [] else (if packs[0] in head then [] else [packs[0]]) + Others(packs[1..], head)
  }

  function Plainly(patterns: seq<string>): seq<Visit> {
    seq(|patterns|, i requires 0 <= i < |patterns| => Visit(patterns[i], false))
  }

  /** The `after` directories queued for a list of bundles. */
  function Queued(bundles: seq<string>): seq<string> {
    seq(|bundles|, i requires 0 <= i < |bundles| => bundles[i] + "/after")
  }

  function Afterwards(queue: seq<string>): seq<Visit> {
    seq(|queue|, i requires 0 <= i < |queue| => Visit(queue[i], true))
  }

  function HeadVisits(head: seq<string>, packs: seq<string>): seq<Visit> {
    if head == [] then []
    else
      [Visit(head[0], false)] + (if head[0] in packs then Plainly(Bundles(head[0])) else [])
      + HeadVisits(head[1..], packs)
  }

  function TailVisits(tail: seq<string>): seq<Visit> {
    seq(|tail|, i requires 0 <= i < |tail| => Visit(tail[i], PathIsAfter(tail[i])))
  }

  /** 'runtimepath' up to the first `after` entry, with start bundles spliced in; the start
      bundles of the other 'packpath' entries; the `after` directories of all those bundles;
      and the rest of 'runtimepath'. */
  function Visits(entries: seq<string>, packs: seq<string>): seq<Visit> {
    var head := entries[..Tail(entries)];
    HeadVisits(head, packs) + Plainly(AllBundles(Others(packs, head)))
      + Afterwards(Queued(AllBundles(Spliced(head, packs) + Others(packs, head))))
          + TailVisits(entries[Tail(entries)..])
  }

  // ----- pushing what a visit expands to

  function Paths(items: seq<Item>): set<string> {
    set i | i in items :: i.path
  }

  function PushItems(items: seq<Item>, more: seq<Item>): seq<Item>
    decreases |more|
  {
    if more == [] then items
    else PushItems(if more[0].path in Paths(items) then items else items + [more[0]], more[1..])
  }

  function Tagged(paths: seq<string>, after: bool): seq<Item> {
    seq(|paths|, i requires 0 <= i < |paths| => Item(paths[i], after))
  }

  /** An entry that is itself on the path is skipped whole. */
  function PushEntry(expand: Expand, items: seq<Item>, visit: Visit): seq<Item> {
    if visit.pattern in Paths(items) then items else PushItems(items, Tagged(expand(visit.pattern), visit.after))
  }

  function Walk(expand: Expand, items: seq<Item>, visits: seq<Visit>): seq<Item>
    decreases |visits|
  {
    if visits == [] then items else Walk(expand, PushEntry(expand, items, visits[0]), visits[1..])
  }

  function Build(expand: Expand, runtimepath: string, packpath: string): seq<Item> {
    Walk(expand, [], Visits(TextItems(runtimepath), TextItems(packpath)))
  }

  // ----- the builder

  class SearchPathBuilder {
    const expand: Expand
    var items: seq<Item>
    var used: set<string>
    var afterQueue: seq<string>

    ghost predicate Valid()
      reads this
    {
      used == Paths(items)
    }

    constructor (expand: Expand)
      ensures Valid() && this.expand == expand && items == [] && afterQueue == []
    {
      this.expand, items, used, afterQueue := expand, [], {}, [];
    }

    method Push(entry: string, after: bool)
      requires Valid()
      modifies this`items, this`used
      ensures Valid() && items == PushEntry(expand, old(items), Visit(entry, after))
    {
      if entry in used {
        return;
      }
      var paths := expand(entry);
      ghost var more := Tagged(paths, after);
      assert more[0..] == more;
      for i := 0 to |paths|
        invariant Valid() && PushItems(items, more[i..]) == PushItems(old(items), more)
      {
        assert more[i..][0] == Item(paths[i], after) && more[i..][1..] == more[i + 1..];
        if paths[i] !in used {
          ghost var before := items;
          used := used + {paths[i]};
          items := items + [Item(paths[i], after)];
          PathsGrow(before, Item(paths[i], after));
        }
      }
      assert more[|paths|..] == [];
    }

    method PushPack(entry: string)
      requires Valid()
      modifies this
      ensures Valid() && items == Walk(expand, old(items), Plainly(Bundles(entry)))
      ensures afterQueue == old(afterQueue) + Queued(Bundles(entry))
    {
      ghost var bundles := Bundles(entry);
      assert Plainly(bundles)[1..] == [Visit(bundles[1], false)] && Plainly(bundles)[1..][1..] == [];
      for i := 0 to 2
        invariant Valid() && Walk(expand, items, Plainly(bundles)[i..]) == Walk(expand, old(items), Plainly(bundles))
        invariant afterQueue == old(afterQueue) + Queued(bundles[..i])
      {
        var bundle := entry + (if i == 0 then "/pack/*/start/*" else "/start/*");
        WalkStep(expand, items, Plainly(bundles), i);
        Push(bundle, false);
        afterQueue := afterQueue + [bundle + "/after"];
      }
    }
  }

  lemma PathsGrow(items: seq<Item>, item: Item)
    ensures Paths(items + [item]) == Paths(items) + {item.path}
  {
  }

  lemma WalkStep(expand: Expand, items: seq<Item>, visits: seq<Visit>, i: nat)
    requires i < |visits|
    ensures Walk(expand, items, visits[i..]) == Walk(expand, PushEntry(expand, items, visits[i]), visits[i + 1..])
  {
    assert visits[i..][0] == visits[i] && visits[i..][1..] == visits[i + 1..];
  }

  lemma {:induction false} WalkConcat(expand: Expand, items: seq<Item>, a: seq<Visit>, b: seq<Visit>)
    ensures Walk(expand, items, a + b) == Walk(expand, Walk(expand, items, a), b)
    decreases |a|
  {
    if a == [] {
      assert a + b == b;
    } else {
      assert (a + b)[1..] == a[1..] + b;
      WalkConcat(expand, PushEntry(expand, items, a[0]), a[1..], b);
    }
  }

  // ----- one more entry at a time

  lemma {:induction false} OneMoreHead(head: seq<string>, packs: seq<string>, e: string)
    ensures HeadVisits(head + [e], packs)
         == HeadVisits(head, packs) + ([Visit(e, false)] + if e in packs then Plainly(Bundles(e)) else [])
    ensures Spliced(head + [e], packs) == Spliced(head, packs) + if e in packs then [e] else []
  {
    if head == [] {
      assert (head + [e])[1..] == [];
    } else {
      assert (head + [e])[1..] == head[1..] + [e];
      OneMoreHead(head[1..], packs, e);
    }
  }

  lemma {:induction false} OneMorePack(packs: seq<string>, head: seq<string>, pack: string)
    ensures Others(packs + [pack], head) == Others(packs, head) + if pack in head then [] else [pack]
  {
    if packs == [] {
      assert (packs + [pack])[1..] == [];
    } else {
      assert (packs + [pack])[1..] == packs[1..] + [pack];
      OneMorePack(packs[1..], head, pack);
    }
  }

  lemma {:induction false} OneMoreBundle(packs: seq<string>, pack: string)
    ensures AllBundles(packs + [pack]) == AllBundles(packs) + Bundles(pack)
  {
    if packs == [] {
      assert (packs + [pack])[1..] == [];
    } else {
      assert (packs + [pack])[1..] == packs[1..] + [pack];
      OneMoreBundle(packs[1..], pack);
    }
  }

  lemma MoreBundles(a: seq<string>, b: seq<string>)
    ensures Plainly(a + b) == Plainly(a) + Plainly(b) && Queued(a + b) == Queued(a) + Queued(b)
  {
  }

  /** Where the builder is after the first entries of 'runtimepath'. */
  ghost predicate AtHead(b: SearchPathBuilder, head: seq<string>, packs: seq<string>)
    reads b
  {
    && b.Valid() && b.items == Walk(b.expand, [], HeadVisits(head, packs))
    && b.afterQueue == Queued(AllBundles(Spliced(head, packs)))
  }

  method PushHead(b: SearchPathBuilder, entry: string, packs: seq<string>, ghost head: seq<string>)
    requires AtHead(b, head, packs)
    modifies b
    ensures AtHead(b, head + [entry], packs)
  {
    ghost var visits := [Visit(entry, false)] + if entry in packs then Plainly(Bundles(entry)) else [];
    OneMoreHead(head, packs, entry);
    WalkConcat(b.expand, [], HeadVisits(head, packs), visits);
    ghost var before := b.items;
    assert [Visit(entry, false)][1..] == [];
    assert Walk(b.expand, before, [Visit(entry, false)]) == PushEntry(b.expand, before, Visit(entry, false));
    b.Push(entry, false);
    if entry in packs {
      WalkConcat(b.expand, before, [Visit(entry, false)], Plainly(Bundles(entry)));
      OneMoreBundle(Spliced(head, packs), entry);
      MoreBundles(AllBundles(Spliced(head, packs)), Bundles(entry));
      b.PushPack(entry);
    }
    assert Spliced(head, packs) + [] == Spliced(head, packs);
    assert [Visit(entry, false)] + [] == [Visit(entry, false)];
  }

  /** Where it is after the first packs. */
  ghost predicate AtPacks(b: SearchPathBuilder, start: seq<Item>, spliced: seq<string>, others: seq<string>)
    reads b
  {
    && b.Valid() && b.items == Walk(b.expand, start, Plainly(AllBundles(others)))
    && b.afterQueue == Queued(AllBundles(spliced + others))
  }

  method PushOther(b: SearchPathBuilder, pack: string, ghost start: seq<Item>, ghost spliced: seq<string>,
                   ghost others: seq<string>)
    requires AtPacks(b, start, spliced, others)
    modifies b
    ensures AtPacks(b, start, spliced, others + [pack])
  {
    OneMoreBundle(others, pack);
    MoreBundles(AllBundles(others), Bundles(pack));
    WalkConcat(b.expand, start, Plainly(AllBundles(others)), Plainly(Bundles(pack)));
    assert spliced + (others + [pack]) == (spliced + others) + [pack];
    OneMoreBundle(spliced + others, pack);
    MoreBundles(AllBundles(spliced + others), Bundles(pack));
    b.PushPack(pack);
  }

  /** Visits the rest of a list of visits, one by one. */
  method PushVisits(b: SearchPathBuilder, visits: seq<Visit>)
    requires b.Valid()
    modifies b
    ensures b.Valid() && b.items == Walk(b.expand, old(b.items), visits)
  {
    assert visits[0..] == visits;
    for i := 0 to |visits|
      invariant b.Valid() && Walk(b.expand, b.items, visits[i..]) == Walk(b.expand, old(b.items), visits)
    {
      WalkStep(b.expand, b.items, visits, i);
      b.Push(visits[i].pattern, visits[i].after);
    }
    assert visits[|visits|..] == [];
  }

  lemma {:induction false} TailAt(entries: seq<string>, n: nat)
    requires n <= |entries| && forall i :: 0 <= i < n ==> !PathIsAfter(entries[i])
    requires n < |entries| ==> PathIsAfter(entries[n])
    ensures Tail(entries) == n
  {
    if n > 0 {
      TailAt(entries[1..], n - 1);
    }
  }

  lemma OneMoreEntry(entries: seq<string>, tail: nat)
    requires tail < |entries|
    ensures entries[..tail + 1] == entries[..tail] + [entries[tail]]
    ensures forall p :: p in entries[..tail + 1] <==> p in entries[..tail] || p == entries[tail]
  {
    assert entries[..tail + 1] == entries[..tail] + [entries[tail]];
  }

  /** Walks 'runtimepath' up to its first `after` entry. */
  method PushHeads(b: SearchPathBuilder, entries: seq<string>, packs: seq<string>)
      returns (tail: nat, usedPacks: set<string>)
    requires AtHead(b, [], packs)
    modifies b
    ensures tail == Tail(entries) && AtHead(b, entries[..tail], packs)
    ensures forall p :: p in packs ==> (p in usedPacks <==> p in entries[..tail])
  {
    tail, usedPacks := 0, {};
    assert entries[..0] == [];
    hide AtHead;
    hide PathIsAfter;
    hide HeadVisits;
    hide Spliced;
    hide AllBundles;
    while tail < |entries| && !PathIsAfter(entries[tail])
      invariant tail <= |entries| && AtHead(b, entries[..tail], packs)
      invariant forall i :: 0 <= i < tail ==> !PathIsAfter(entries[i])
      invariant forall p :: p in packs ==> (p in usedPacks <==> p in entries[..tail])
    {
      PushHead(b, entries[tail], packs, entries[..tail]);
      if entries[tail] in packs {
        usedPacks := usedPacks + {entries[tail]};
      }
      OneMoreEntry(entries, tail);
      tail := tail + 1;
    }
    TailAt(entries, tail);
  }

  /** Adds the start bundles of the packs not spliced in. */
  method PushOthers(b: SearchPathBuilder, packs: seq<string>, usedPacks: set<string>, ghost head: seq<string>)
    requires AtHead(b, head, packs) && forall p :: p in packs ==> (p in usedPacks <==> p in head)
    modifies b
    ensures AtPacks(b, old(b.items), Spliced(head, packs), Others(packs, head))
  {
    ghost var start, spliced := b.items, Spliced(head, packs);
    OthersEmpty(head, spliced);
    hide HeadVisits;
    hide Spliced;
    hide Others;
    hide AllBundles;
    for i := 0 to |packs|
      invariant AtPacks(b, start, spliced, Others(packs[..i], head))
    {
      assert packs[..i + 1] == packs[..i] + [packs[i]];
      OneMorePack(packs[..i], head, packs[i]);
      if packs[i] !in usedPacks {
        PushOther(b, packs[i], start, spliced, Others(packs[..i], head));
      } else {
        assert Others(packs[..i], head) + [] == Others(packs[..i], head);
      }
    }
    assert packs[..|packs|] == packs;
  }

  method BuildSearchPath(expand: Expand, runtimepath: string, packpath: string) returns (items: seq<Item>)
    ensures items == Build(expand, runtimepath, packpath)
  {
    var entries, packs := TextItems(runtimepath), TextItems(packpath);
    var b := new SearchPathBuilder(expand);
    HeadEmpty(packs);
    hide HeadVisits;
    hide Spliced;
    hide Others;
    hide AllBundles;
    var tail, usedPacks := PushHeads(b, entries, packs);
    ghost var head := entries[..tail];
    PushOthers(b, packs, usedPacks, head);
    var queue := b.afterQueue;
    b.afterQueue := [];
    PushVisits(b, Afterwards(queue));
    PushVisits(b, TailVisits(entries[tail..]));
    items := b.items;
    FourParts(expand, HeadVisits(head, packs), Plainly(AllBundles(Others(packs, head))), Afterwards(queue),
        TailVisits(entries[tail..]));
  }

  lemma FourParts(expand: Expand, a: seq<Visit>, b: seq<Visit>, c: seq<Visit>, d: seq<Visit>)
    ensures Walk(expand, [], a + b + c + d) == Walk(expand, Walk(expand, Walk(expand, Walk(expand, [], a), b), c), d)
  {
    WalkConcat(expand, [], a, b);
    WalkConcat(expand, [], a + b, c);
    WalkConcat(expand, [], a + b + c, d);
  }

  lemma HeadEmpty(packs: seq<string>)
    ensures HeadVisits([], packs) == [] && Spliced([], packs) == [] && AllBundles([]) == []
  {
  }

  lemma OthersEmpty(head: seq<string>, spliced: seq<string>)
    ensures Others([], head) == [] && spliced + [] == spliced && AllBundles([]) == []
  {
  }

  // ----- what the walk computes

  function Expanded(expand: Expand, visits: seq<Visit>): seq<Item> {
    if visits == [] then [] else Tagged(expand(visits[0].pattern), visits[0].after) + Expanded(expand, visits[1..])
  }

  /** Expanding a path that an expansion yields yields no other path. */
  ghost predicate PathsAreStable(expand: Expand) {
    forall pattern, p, q :: p in expand(pattern) && q in expand(p) ==> q == p
  }

  ghost predicate Yielded(expand: Expand, items: seq<Item>) {
    forall i :: i in items ==> forall q :: q in expand(i.path) ==> q == i.path
  }

  lemma {:induction false} PushConcat(items: seq<Item>, a: seq<Item>, b: seq<Item>)
    ensures PushItems(items, a + b) == PushItems(PushItems(items, a), b)
    decreases |a|
  {
    if a == [] {
      assert a + b == b;
    } else {
      assert (a + b)[1..] == a[1..] + b;
      PushConcat(if a[0].path in Paths(items) then items else items + [a[0]], a[1..], b);
    }
  }

  lemma {:induction false} PushKnown(items: seq<Item>, more: seq<Item>)
    requires forall i :: 0 <= i < |more| ==> more[i].path in Paths(items)
    ensures PushItems(items, more) == items
    decreases |more|
  {
    if more != [] {
      PushKnown(items, more[1..]);
    }
  }

  lemma {:induction false} PushKeeps(items: seq<Item>, more: seq<Item>)
    ensures forall i :: i in PushItems(items, more) ==> i in items || i in more
    decreases |more|
  {
    if more != [] {
      PushKeeps(if more[0].path in Paths(items) then items else items + [more[0]], more[1..]);
      assert more == [more[0]] + more[1..];
    }
  }

  /** Skipping an entry that is on the path already drops nothing. */
  lemma PushEntryIsPush(expand: Expand, items: seq<Item>, visit: Visit)
    requires PathsAreStable(expand) && Yielded(expand, items)
    ensures var more := Tagged(expand(visit.pattern), visit.after);
            PushEntry(expand, items, visit) == PushItems(items, more) && Yielded(expand, PushItems(items, more))
  {
    var more := Tagged(expand(visit.pattern), visit.after);
    if visit.pattern in Paths(items) {
      forall i | 0 <= i < |more|
        ensures more[i].path in Paths(items)
      {
        assert expand(visit.pattern)[i] in expand(visit.pattern);
      }
      PushKnown(items, more);
    }
    PushKeeps(items, more);
    forall i | i in more
      ensures i.path in expand(visit.pattern)
    {
    }
  }

  /** The walk is the deduplication of the expansions of all visits, in order. */
  lemma {:induction false} WalkIsPush(expand: Expand, items: seq<Item>, visits: seq<Visit>)
    requires PathsAreStable(expand) && Yielded(expand, items)
    ensures Walk(expand, items, visits) == PushItems(items, Expanded(expand, visits))
    decreases |visits|
  {
    hide PathsAreStable;
    hide Yielded;
    if visits != [] {
      PushEntryIsPush(expand, items, visits[0]);
      var more := Tagged(expand(visits[0].pattern), visits[0].after);
      WalkIsPush(expand, PushItems(items, more), visits[1..]);
      PushConcat(items, more, Expanded(expand, visits[1..]));
    }
  }

  // ----- what deduplication means

  /** Where a path first occurs in a list, or the list's length. */
  function FirstAt(list: seq<Item>, path: string): (n: nat)
    ensures n <= |list| && (n < |list| ==> list[n].path == path)
  {
    if list == [] || list[0].path == path then 0 else 1 + FirstAt(list[1..], path)
  }

  /** The items are the first occurrences in the list, in the list's order, of every path. */
  ghost predicate FirstOccurrences(items: seq<Item>, list: seq<Item>) {
    && (forall i :: 0 <= i < |items| ==>
        FirstAt(list, items[i].path) < |list| && list[FirstAt(list, items[i].path)] == items[i])
    && (forall i, j :: 0 <= i < j < |items| ==> FirstAt(list, items[i].path) < FirstAt(list, items[j].path))
    && (forall k :: 0 <= k < |list| ==> list[k].path in Paths(items))
  }

  lemma {:induction false} FirstAtGrows(list: seq<Item>, item: Item, path: string)
    ensures FirstAt(list + [item], path)
         == if FirstAt(list, path) < |list| then FirstAt(list, path)
            else if item.path == path then |list|
            else |list| + 1
  {
    if list == [] {
      assert (list + [item])[1..] == [];
    } else {
      assert (list + [item])[1..] == list[1..] + [item];
      if list[0].path != path {
        FirstAtGrows(list[1..], item, path);
      }
    }
  }

  lemma StillFirst(items: seq<Item>, list: seq<Item>, item: Item)
    requires FirstOccurrences(items, list)
    ensures forall i :: 0 <= i < |items| ==>
            FirstAt(list + [item], items[i].path) == FirstAt(list, items[i].path) < |list|
  {
    forall i | 0 <= i < |items|
      ensures FirstAt(list + [item], items[i].path) == FirstAt(list, items[i].path)
    {
      FirstAtGrows(list, item, items[i].path);
    }
  }

  lemma KnownGrows(items: seq<Item>, list: seq<Item>, item: Item)
    requires FirstOccurrences(items, list) && item.path in Paths(items)
    ensures FirstOccurrences(items, list + [item])
  {
    StillFirst(items, list, item);
    hide Paths;
    var all := list + [item];
    forall k | 0 <= k < |all|
      ensures all[k].path in Paths(items)
    {
      if k < |list| {
        assert all[k] == list[k];
      }
    }
    hide FirstAt;
  }

  lemma NewIsNotThere(items: seq<Item>, list: seq<Item>, item: Item)
    requires FirstOccurrences(items, list) && item.path !in Paths(items)
    ensures FirstAt(list + [item], item.path) == |list|
  {
    hide Paths;
    FirstAtGrows(list, item, item.path);
    assert forall k :: 0 <= k < |list| ==> list[k].path != item.path;
  }

  lemma NewGrows(items: seq<Item>, list: seq<Item>, item: Item)
    requires FirstOccurrences(items, list) && item.path !in Paths(items)
    ensures FirstOccurrences(items + [item], list + [item])
  {
    StillFirst(items, list, item);
    NewIsNotThere(items, list, item);
    PathsGrow(items, item);
    hide Paths;
    hide FirstAt;
    var all, now := list + [item], items + [item];
    forall k | 0 <= k < |all|
      ensures all[k].path in Paths(now)
    {
      if k < |list| {
        assert all[k] == list[k];
      }
    }
    forall i | 0 <= i < |now|
      ensures FirstAt(all, now[i].path) < |all| && all[FirstAt(all, now[i].path)] == now[i]
    {
      if i < |items| {
        assert now[i] == items[i];
      }
    }
    forall i, j | 0 <= i < j < |now|
      ensures FirstAt(all, now[i].path) < FirstAt(all, now[j].path)
    {
      assert now[i] == items[i];
      if j < |items| {
        assert now[j] == items[j];
      }
    }
  }

  lemma {:induction false} PushIsFirstOccurrences(items: seq<Item>, list: seq<Item>, more: seq<Item>)
    requires FirstOccurrences(items, list)
    ensures FirstOccurrences(PushItems(items, more), list + more)
    decreases |more|
  {
    hide FirstOccurrences;
    if more == [] {
      assert list + more == list;
    } else {
      var now := if more[0].path in Paths(items) then items else items + [more[0]];
      assert PushItems(items, more) == PushItems(now, more[1..]);
      hide PushItems;
      if more[0].path in Paths(items) {
        KnownGrows(items, list, more[0]);
      } else {
        NewGrows(items, list, more[0]);
      }
      PushIsFirstOccurrences(now, list + [more[0]], more[1..]);
      assert (list + [more[0]]) + more[1..] == list + more;
    }
  }

  /** The search path is the first occurrences of what the specified visits expand to, when
      expanding a path already listed yields only that path. */
  lemma SearchPathIsFirstOccurrences(expand: Expand, runtimepath: string, packpath: string)
    requires PathsAreStable(expand)
    ensures FirstOccurrences(Build(expand, runtimepath, packpath),
                             Expanded(expand, Visits(TextItems(runtimepath), TextItems(packpath))))
  {
    var visits := Visits(TextItems(runtimepath), TextItems(packpath));
    assert Build(expand, runtimepath, packpath) == Walk(expand, [], visits);
    assert FirstOccurrences([], []) && Yielded(expand, []);
    hide *;
    WalkIsPush(expand, [], visits);
    PushIsFirstOccurrences([], [], Expanded(expand, visits));
    assert [] + Expanded(expand, visits) == Expanded(expand, visits);
  }

  // ----- lookups

  /** A directory with its trailing slashes trimmed, a slash, and a name. */
  function JoinSlash(dir: string, leaf: string): string
    decreases |dir|
  {
    if dir != "" && dir[|dir| - 1] == '/' then JoinSlash(dir[..|dir| - 1], leaf) else dir + "/" + leaf
  }

  function Matches(files: Expand, dir: string, patterns: seq<string>): seq<string> {
    if patterns == [] then [] else files(JoinSlash(dir, patterns[0])) + Matches(files, dir, patterns[1..])
  }

  function AllMatches(files: Expand, items: seq<Item>, patterns: seq<string>): seq<string> {
    if items == [] then [] else Matches(files, items[0].path, patterns) + AllMatches(files, items[1..], patterns)
  }

  function PathList(items: seq<Item>): seq<string> {
    seq(|items|, i requires 0 <= i < |items| => items[i].path)
  }

  /** What a lookup of every match finds: the path itself for no name. */
  function Found(files: Expand, items: seq<Item>, patterns: seq<string>, unnamed: bool): seq<string> {
    if unnamed then PathList(items) else AllMatches(files, items, patterns)
  }

  function Limit(found: seq<string>, all: bool): seq<string> {
    if all || found == [] then found else [found[0]]
  }

  lemma LimitIs(first: seq<string>, rest: seq<string>)
    ensures first != [] ==> Limit(first + rest, false) == [first[0]]
    ensures Limit(first, true) == first && ([] + first == first)
  {
  }

  method MatchesBelow(files: Expand, dir: string, patterns: seq<string>, all: bool) returns (found: seq<string>)
    ensures found == Limit(Matches(files, dir, patterns), all)
  {
    found := [];
    assert patterns[0..] == patterns;
    for i := 0 to |patterns|
      invariant found + Matches(files, dir, patterns[i..]) == Matches(files, dir, patterns)
      invariant !all ==> found == []
    {
      var paths := files(JoinSlash(dir, patterns[i]));
      assert patterns[i..][1..] == patterns[i + 1..];
      assert Matches(files, dir, patterns[i..]) == paths + Matches(files, dir, patterns[i + 1..]);
      hide Matches;
      if !all && paths != [] {
        LimitIs(paths, Matches(files, dir, patterns[i + 1..]));
        return [paths[0]];
      }
      found := found + paths;
    }
    assert patterns[|patterns|..] == [];
  }

  method FindBelow(files: Expand, items: seq<Item>, patterns: seq<string>, unnamed: bool, all: bool)
      returns (found: seq<string>)
    ensures found == Limit(Found(files, items, patterns, unnamed), all)
  {
    found := [];
    assert items[0..] == items;
    NothingYet(Found(files, items, patterns, unnamed));
    hide *;
    for i := 0 to |items|
      invariant found + Found(files, items[i..], patterns, unnamed) == Found(files, items, patterns, unnamed)
      invariant !all ==> found == []
    {
      FoundStep(files, items, patterns, unnamed, i, found);
      if unnamed {
        if !all {
          LimitIs([items[i].path], Found(files, items[i + 1..], patterns, unnamed));
          NothingYet([items[i].path]);
          return [items[i].path];
        }
        found := found + [items[i].path];
      } else {
        var below := MatchesBelow(files, items[i].path, patterns, all);
        LimitIs(Matches(files, items[i].path, patterns), Found(files, items[i + 1..], patterns, unnamed));
        NothingYet(Matches(files, items[i].path, patterns));
        LimitEmpty(Matches(files, items[i].path, patterns));
        if !all && below != [] {
          return below;
        }
        found := found + below;
      }
    }
    FoundNothing(files, patterns, unnamed);
    assert items[|items|..] == [];
    LimitIs(found, []);
    assert found + [] == found;
    LimitEmpty(found);
  }

  predicate Blank(c: char) {
    c == ' ' || c == '\t'
  }

  /** The length of the text's first word. */
  function WordLength(s: string): (n: nat)
    ensures n <= |s| && (forall i :: 0 <= i < n ==> !Blank(s[i])) && (n < |s| ==> Blank(s[n]))
  {
    if s == [] || Blank(s[0]) then 0 else 1 + WordLength(s[1..])
  }

  /** The patterns of a name: what is between blanks, without the empty parts. */
  function Words(name: string): (words: seq<string>)
    ensures forall w :: w in words ==> w != [] && forall i :: 0 <= i < |w| ==> !Blank(w[i])
    decreases |name|
  {
    var n := WordLength(name);
    if n > 0 then [name[..n]] + Words(name[n..])
    else if name == [] then []
    else Words(name[1..])
  }

  lemma OneMoreChar(word: string, rest: string, n: nat)
    requires n < |rest|
    ensures word + rest[..n + 1] == (word + [rest[0]]) + rest[1..][..n]
    ensures rest[n + 1..] == rest[1..][n..]
  {
    assert rest[..n + 1] == [rest[0]] + rest[1..][..n];
  }

  /** The words of a text after the start of one. */
  function WordsAfter(word: string, rest: string): seq<string> {
    var n := WordLength(rest);
    var first := word + rest[..n];
    (if first == [] then [] else [first]) + Words(rest[n..])
  }

  lemma WordsStart(name: string)
    ensures WordsAfter([], name) == Words(name)
  {
    var n := WordLength(name);
    assert [] + name[..n] == name[..n] && name[0..] == name;
  }

  lemma WordEnds(word: string, rest: string)
    requires rest != [] && Blank(rest[0])
    ensures WordsAfter(word, rest) == (if word == [] then [] else [word]) + WordsAfter([], rest[1..])
  {
    assert rest[..0] == [] && word + [] == word && rest[0..] == rest;
    WordsStart(rest[1..]);
  }

  lemma WordGoesOn(word: string, rest: string)
    requires rest != [] && !Blank(rest[0])
    ensures WordsAfter(word, rest) == WordsAfter(word + [rest[0]], rest[1..])
  {
    var n := WordLength(rest[1..]);
    assert WordLength(rest) == n + 1;
    hide WordLength;
    hide Words;
    OneMoreChar(word, rest, n);
  }

  function Ended(words: seq<string>, word: string): seq<string> {
    if word == [] then words else words + [word]
  }

  lemma WordStep(words: seq<string>, word: string, name: string, i: nat)
    requires i < |name|
    ensures words + WordsAfter(word, name[i..])
         == if Blank(name[i]) then Ended(words, word) + WordsAfter([], name[i + 1..])
            else words + WordsAfter(word + [name[i]], name[i + 1..])
  {
    var rest := name[i..];
    assert rest[0] == name[i] && rest[1..] == name[i + 1..];
    if Blank(name[i]) {
      WordEnds(word, rest);
      hide WordsAfter;
      assert words + ((if word == [] then [] else [word]) + WordsAfter([], rest[1..]))
          == Ended(words, word) + WordsAfter([], rest[1..]);
    } else {
      WordGoesOn(word, rest);
    }
  }

  lemma NoMoreWords(words: seq<string>, word: string)
    ensures words + WordsAfter(word, []) == Ended(words, word)
  {
    var none: string := [];
    assert WordLength(none) == 0 && none[..0] == [] && none[0..] == [] && word + none[..0] == word;
    assert Words(none) == [];
    assert words + [] == words && [word] + [] == [word];
  }

  method SplitWords(name: string) returns (words: seq<string>)
    ensures words == Words(name)
  {
    hide Words;
    hide WordsAfter;
    words := [];
    var word := [];
    WordsStart(name);
    assert name[0..] == name && [] + Words(name) == Words(name);
    for i := 0 to |name|
      invariant words + WordsAfter(word, name[i..]) == Words(name)
    {
      WordStep(words, word, name, i);
      if Blank(name[i]) {
        if word != [] {
          words := words + [word];
        }
        word := [];
      } else {
        word := word + [name[i]];
      }
    }
    NoMoreWords(words, word);
    assert name[|name|..] == [];
    if word != [] {
      words := words + [word];
    }
  }

  /** Walks the search path in order, for each word of the name; without `all` it stops at
      the first match, so that lookup is the at most one element prefix of the full one. */
  method FindRuntimeFiles(files: Expand, items: seq<Item>, name: string, all: bool) returns (found: seq<string>)
    ensures found == Limit(Found(files, items, Words(name), name == []), all)
  {
    var patterns := SplitWords(name);
    found := FindBelow(files, items, patterns, name == [], all);
  }

  lemma NothingYet(found: seq<string>)
    ensures [] + found == found
  {
  }

  lemma LimitEmpty(found: seq<string>)
    ensures Limit(found, false) == [] <==> found == []
    ensures found != [] ==> Limit(found, false) == [found[0]]
  {
  }

  lemma FoundNothing(files: Expand, patterns: seq<string>, unnamed: bool)
    ensures Found(files, [], patterns, unnamed) == []
  {
  }

  lemma FoundStep(files: Expand, items: seq<Item>, patterns: seq<string>, unnamed: bool, i: nat, done: seq<string>)
    requires i < |items|
    ensures var first := if unnamed then [items[i].path] else Matches(files, items[i].path, patterns);
            && done + Found(files, items[i..], patterns, unnamed)
                == (done + first) + Found(files, items[i + 1..], patterns, unnamed)
  {
    assert items[i..][1..] == items[i + 1..];
    var first := if unnamed then [items[i].path] else Matches(files, items[i].path, patterns);
    assert Found(files, items[i..], patterns, unnamed) == first + Found(files, items[i + 1..], patterns, unnamed);
  }

  // ----- the cache

  class RuntimeState {
    var runtimepath: string
    var packpath: string
    var expand: Expand
    var cached: Option<((string, string), seq<Item>)>

    /** A cached path was built for its key from the filesystem in use. */
    ghost predicate Valid()
      reads this
    {
      cached.Some? ==> cached.value.1 == Build(expand, cached.value.0.0, cached.value.0.1)
    }

    constructor (expand: Expand)
      ensures Valid() && this.expand == expand && cached.None?
    {
      this.expand, runtimepath, packpath, cached := expand, "", "", None;
    }

    /** A new filesystem discards the cached path. */
    method SetFileIO(fileIo: Expand)
      requires Valid()
      modifies this`expand, this`cached
      ensures Valid() && expand == fileIo
    {
      expand := fileIo;
      cached := None;
    }

    method SetOptions(runtimepath: string, packpath: string)
      requires Valid()
      modifies this`runtimepath, this`packpath
      ensures Valid() && this.runtimepath == runtimepath && this.packpath == packpath
    {
      this.runtimepath, this.packpath := runtimepath, packpath;
    }

    /** The walk always sees a path freshly built for the current options. */
    method WithSearchPath() returns (items: seq<Item>)
      requires Valid()
      modifies this`cached
      ensures Valid() && items == Build(expand, runtimepath, packpath)
    {
      hide Build;
      var key := (runtimepath, packpath);
      if cached.Some? && cached.value.0 != key {
        cached := None;
      }
      if cached.None? {
        var built := BuildSearchPath(expand, runtimepath, packpath);
        cached := Some((key, built));
      }
      items := cached.value.1;
    }
  }

  datatype Use = NewFileIO(fileIo: Expand) | NewOptions(runtimepath: string, packpath: string) | Lookup

  /** Over every history of option changes, new filesystems and lookups, each lookup walked
      the path that a fresh build would have given it. */
  method RunUses(state: RuntimeState, uses: seq<Use>) returns (walked: seq<seq<Item>>)
    requires state.Valid()
    modifies state
    ensures state.Valid()
    ensures walked == FreshWalks(old(state.expand), old(state.runtimepath), old(state.packpath), uses)
  {
    hide Build;
    walked := [];
    assert uses[0..] == uses;
    for i := 0 to |uses|
      invariant state.Valid()
      invariant walked + FreshWalks(state.expand, state.runtimepath, state.packpath, uses[i..])
             == FreshWalks(old(state.expand), old(state.runtimepath), old(state.packpath), uses)
    {
      assert uses[i..][0] == uses[i] && uses[i..][1..] == uses[i + 1..];
      match uses[i]
      case NewFileIO(fileIo) => state.SetFileIO(fileIo);
      case NewOptions(runtimepath, packpath) => state.SetOptions(runtimepath, packpath);
      case Lookup =>
        var items := state.WithSearchPath();
        walked := walked + [items];
    }
    assert uses[|uses|..] == [];
  }

  /** The same history without a cache. */
  function FreshWalks(expand: Expand, runtimepath: string, packpath: string, uses: seq<Use>): seq<seq<Item>>
    decreases |uses|
  {
    if uses == [] then []
    else match uses[0]
      case NewFileIO(fileIo) => FreshWalks(fileIo, runtimepath, packpath, uses[1..])
      case NewOptions(r, p) => FreshWalks(expand, r, p, uses[1..])
      case Lookup => [Build(expand, runtimepath, packpath)] + FreshWalks(expand, runtimepath, packpath, uses[1..])
  }
}
