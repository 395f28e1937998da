/** Where the directories of the search path come from, in which order, and with which tags. */
module SearchOrder {
  import opened CommaItems
  import opened SearchPath

  // ----- the words of the options

  /** The last component of the path is `after`. */
  ghost predicate AfterDirectory(entry: string) {
    entry == "after" || exists dir: string :: entry == dir + "/after"
  }

  lemma PathIsAfterIff(entry: string)
    ensures PathIsAfter(entry) <==> AfterDirectory(entry)
  {
    var n := |entry|;
    if PathIsAfter(entry) {
      if n == 5 {
        assert entry[0..] == entry;
      } else {
        assert entry == entry[..n - 6] + "/after";
      }
    }
    forall dir: string | entry == dir + "/after"
      ensures PathIsAfter(entry)
    {
      assert entry[n - 5..] == "after" && entry[n - 6] == '/';
    }
    if entry == "after" {
      assert entry[0..] == "after";
    }
  }

  predicate StartBundle(pattern: string, pack: string) {
    pattern == pack + "/pack/*/start/*" || pattern == pack + "/start/*"
  }

  // ----- what a walk adds

  /** The walk goes on from the items before to those after: it adds only directories that were
      not listed and that a visited pattern expands to, under its tag, and from that pattern only
      if it was not itself listed; and what a visited pattern expands to is listed then, unless
      the pattern itself is. */
  ghost predicate Adds(expand: Expand, before: seq<Item>, after: seq<Item>, visits: seq<Visit>) {
    && before <= after
    && (forall i :: |before| <= i < |after| ==> From(expand, visits, after, |before|, i))
    && (forall v :: v in visits ==> Covered(expand, after, v.pattern))
  }

  /** The pattern was not listed when its visit began, at position j; from there to i it adds. */
  predicate Begins(expand: Expand, v: Visit, items: seq<Item>, j: nat, i: nat)
    requires j <= i < |items|
  {
    && v.pattern !in Paths(items[..j]) && items[i].after == v.after
    && forall k :: j <= k <= i ==> items[k].path in expand(v.pattern)
  }

  ghost predicate From(expand: Expand, visits: seq<Visit>, items: seq<Item>, from: nat, i: nat)
    requires from <= i < |items|
  {
    exists v, j :: v in visits && from <= j <= i && Begins(expand, v, items, j, i)
  }

  lemma BeginsStays(expand: Expand, v: Visit, items: seq<Item>, longer: seq<Item>, j: nat, i: nat)
    requires j <= i < |items| && items <= longer && Begins(expand, v, items, j, i)
    ensures Begins(expand, v, longer, j, i)
  {
    assert longer[..j] == items[..j];
  }

  predicate Covered(expand: Expand, items: seq<Item>, pattern: string) {
    pattern in Paths(items) || forall q :: q in expand(pattern) ==> q in Paths(items)
  }

  predicate Distinct(items: seq<Item>) {
    forall i, j :: 0 <= i < j < |items| ==> items[i].path != items[j].path
  }

  lemma {:induction false} PushAdds(items: seq<Item>, more: seq<Item>)
    ensures var next := PushItems(items, more);
            && items <= next && (forall i :: |items| <= i < |next| ==> next[i] in more)
            && (forall m :: m in more ==> m.path in Paths(next))
            && (Distinct(items) ==> Distinct(next))
    decreases |more|
  {
    if more != [] {
      var now := if more[0].path in Paths(items) then items else items + [more[0]];
      assert more == [more[0]] + more[1..];
      assert more[0].path in Paths(now);
      PushAdds(now, more[1..]);
      PathsStay(now, PushItems(items, more));
    }
  }

  lemma PathsStay(before: seq<Item>, after: seq<Item>)
    requires before <= after
    ensures Paths(before) <= Paths(after)
  {
    assert forall i :: i in before ==> i in after;
  }

  lemma EntryAdds(expand: Expand, items: seq<Item>, visit: Visit)
    ensures var next := PushEntry(expand, items, visit);
            Adds(expand, items, next, [visit]) && (Distinct(items) ==> Distinct(next))
  {
    var paths := expand(visit.pattern);
    var more := Tagged(paths, visit.after);
    PushAdds(items, more);
    var next := PushEntry(expand, items, visit);
    assert visit in [visit];
    assert visit.pattern !in Paths(items) ==> next == PushItems(items, more);
    forall q | q in paths && visit.pattern !in Paths(items)
      ensures q in Paths(next)
    {
      var k :| 0 <= k < |paths| && paths[k] == q;
      assert more[k] in more && more[k].path == q;
    }
    forall i | |items| <= i < |next|
      ensures From(expand, [visit], next, |items|, i)
    {
      assert next[..|items|] == items;
      assert forall k :: |items| <= k <= i ==> next[k] in more;
      assert Begins(expand, visit, next, |items|, i);
    }
  }

  lemma CoveredStays(expand: Expand, before: seq<Item>, after: seq<Item>, pattern: string)
    requires before <= after && Covered(expand, before, pattern)
    ensures Covered(expand, after, pattern)
  {
    PathsStay(before, after);
  }

  lemma AddsTwice(expand: Expand, a: seq<Item>, b: seq<Item>, c: seq<Item>, visits: seq<Visit>)
    requires visits != [] && Adds(expand, a, b, [visits[0]]) && Adds(expand, b, c, visits[1..])
    ensures Adds(expand, a, c, visits)
  {
    assert visits == [visits[0]] + visits[1..];
    CoveredStays(expand, b, c, visits[0].pattern);
    hide Covered;
    hide Begins;
    forall i | |a| <= i < |c|
      ensures From(expand, visits, c, |a|, i)
    {
      if i < |b| {
        assert From(expand, [visits[0]], b, |a|, i);
        var v, j :| v in [visits[0]] && |a| <= j <= i && Begins(expand, v, b, j, i);
        BeginsStays(expand, v, b, c, j, i);
      } else {
        assert From(expand, visits[1..], c, |b|, i);
        var v, j :| v in visits[1..] && |b| <= j <= i && Begins(expand, v, c, j, i);
      }
    }
  }

  lemma {:induction false} WalkAdds(expand: Expand, items: seq<Item>, visits: seq<Visit>)
    ensures var next := Walk(expand, items, visits);
            Adds(expand, items, next, visits) && (Distinct(items) ==> Distinct(next))
    decreases |visits|
  {
    if visits != [] {
      var now := PushEntry(expand, items, visits[0]);
      EntryAdds(expand, items, visits[0]);
      WalkAdds(expand, now, visits[1..]);
      AddsTwice(expand, items, now, Walk(expand, now, visits[1..]), visits);
      hide PushEntry;
      hide Adds;
      hide Distinct;
    }
  }

  // ----- what is visited

  predicate OfHead(head: seq<string>, packs: seq<string>, pattern: string) {
    pattern in head || exists pack :: pack in packs && pack in head && StartBundle(pattern, pack)
  }

  predicate OfOthers(head: seq<string>, packs: seq<string>, pattern: string) {
    exists pack :: pack in packs && pack !in head && StartBundle(pattern, pack)
  }

  ghost predicate OfAfter(packs: seq<string>, pattern: string) {
    exists pack, bundle :: pack in packs && StartBundle(bundle, pack) && pattern == bundle + "/after"
  }

  lemma {:induction false} HeadVisitsAre(head: seq<string>, packs: seq<string>)
    ensures forall v :: v in HeadVisits(head, packs) <==> !v.after && OfHead(head, packs, v.pattern)
  {
    if head != [] {
      HeadVisitsAre(head[1..], packs);
      BundlesAre(head[0]);
      assert head == [head[0]] + head[1..];
      forall v
        ensures v in HeadVisits(head, packs)
           <==> v == Visit(head[0], false) || (head[0] in packs && v in Plainly(Bundles(head[0])))
                || v in HeadVisits(head[1..], packs)
      {
      }
      hide HeadVisits;
      hide Plainly;
      hide StartBundle;
      forall v: Visit
        ensures OfHead(head, packs, v.pattern)
           <==> v.pattern == head[0] || (head[0] in packs && StartBundle(v.pattern, head[0]))
                || OfHead(head[1..], packs, v.pattern)
      {
      }
    }
  }

  lemma BundlesAre(pack: string)
    ensures forall p :: p in Bundles(pack) <==> StartBundle(p, pack)
    ensures forall v :: v in Plainly(Bundles(pack)) <==> !v.after && StartBundle(v.pattern, pack)
  {
    PlainlyAre(Bundles(pack));
  }

  lemma PlainlyAre(patterns: seq<string>)
    ensures forall v :: v in Plainly(patterns) <==> !v.after && v.pattern in patterns
  {
    forall v: Visit | !v.after && v.pattern in patterns
      ensures v in Plainly(patterns)
    {
      var i :| 0 <= i < |patterns| && patterns[i] == v.pattern;
      assert Plainly(patterns)[i] == v;
    }
  }

  lemma {:induction false} AllBundlesAre(packs: seq<string>)
    ensures forall p :: p in AllBundles(packs) <==> exists pack :: pack in packs && StartBundle(p, pack)
  {
    if packs != [] {
      AllBundlesAre(packs[1..]);
      BundlesAre(packs[0]);
      assert packs == [packs[0]] + packs[1..];
      hide Bundles;
      hide StartBundle;
    }
  }

  lemma {:induction false} OthersAre(packs: seq<string>, head: seq<string>)
    ensures forall p :: p in Others(packs, head) <==> p in packs && p !in head
  {
    if packs != [] {
      OthersAre(packs[1..], head);
      assert packs == [packs[0]] + packs[1..];
    }
  }

  lemma {:induction false} SplicedAre(head: seq<string>, packs: seq<string>)
    ensures forall p :: p in Spliced(head, packs) <==> p in packs && p in head
  {
    if head != [] {
      SplicedAre(head[1..], packs);
      assert head == [head[0]] + head[1..];
    }
  }

  lemma OtherVisitsAre(head: seq<string>, packs: seq<string>)
    ensures forall v :: v in Plainly(AllBundles(Others(packs, head))) <==> !v.after && OfOthers(head, packs, v.pattern)
  {
    OthersAre(packs, head);
    AllBundlesAre(Others(packs, head));
    PlainlyAre(AllBundles(Others(packs, head)));
    hide StartBundle;
    hide AllBundles;
    hide Others;
    hide Plainly;
  }

  lemma AfterVisitsAre(head: seq<string>, packs: seq<string>)
    ensures forall v :: v in Afterwards(Queued(AllBundles(Spliced(head, packs) + Others(packs, head))))
              <==> v.after && OfAfter(packs, v.pattern)
  {
    var all := Spliced(head, packs) + Others(packs, head);
    OthersAre(packs, head);
    SplicedAre(head, packs);
    AllBundlesAre(all);
    assert forall p :: p in all <==> p in packs;
    hide StartBundle;
    hide Others;
    hide Spliced;
    var bundles := AllBundles(all);
    hide AllBundles;
    forall v: Visit
      ensures v in Afterwards(Queued(bundles)) <==> v.after && exists b :: b in bundles && v.pattern == b + "/after"
    {
      if v.after && exists b :: b in bundles && v.pattern == b + "/after" {
        var b :| b in bundles && v.pattern == b + "/after";
        var i :| 0 <= i < |bundles| && bundles[i] == b;
        assert Afterwards(Queued(bundles))[i] == v;
      }
    }
  }

  // ----- the order of the path

  /** The stretch of the path that comes from these patterns: nothing else is in it, each
      directory has the tag of a pattern that it comes from, which was not itself listed before,
      and what the patterns expand to is listed at its end, unless the pattern itself is. */
  ghost predicate Stretch(expand: Expand, items: seq<Item>, from: nat, to: nat, of: Visit -> bool) {
    && from <= to <= |items|
    && (forall i :: from <= i < to ==> Comes(expand, of, items, from, i))
    && (forall v :: of(v) ==> Covered(expand, items[..to], v.pattern))
  }

  ghost predicate Comes(expand: Expand, of: Visit -> bool, items: seq<Item>, from: nat, i: nat)
    requires from <= i < |items|
  {
    exists v, j :: of(v) && from <= j <= i && Begins(expand, v, items, j, i)
  }

  /** One part of the visits, walked between two others. */
  lemma PartIsStretch(expand: Expand, before: seq<Item>, visits: seq<Visit>, items: seq<Item>, of: Visit -> bool)
    requires Walk(expand, before, visits) <= items && forall v :: v in visits <==> of(v)
    ensures |before| <= |Walk(expand, before, visits)|
    ensures Stretch(expand, items, |before|, |Walk(expand, before, visits)|, of)
  {
    var now := Walk(expand, before, visits);
    WalkAdds(expand, before, visits);
    hide Walk;
    hide Covered;
    assert items[..|now|] == now;
    forall i | |before| <= i < |now|
      ensures Comes(expand, of, items, |before|, i)
    {
      assert From(expand, visits, now, |before|, i);
      var v, j :| v in visits && |before| <= j <= i && Begins(expand, v, now, j, i);
      BeginsStays(expand, v, now, items, j, i);
    }
  }

  lemma WalkGrows(expand: Expand, before: seq<Item>, visits: seq<Visit>)
    ensures before <= Walk(expand, before, visits)
    ensures Distinct(before) ==> Distinct(Walk(expand, before, visits))
  {
    WalkAdds(expand, before, visits);
    hide Walk;
    hide From;
    hide Covered;
  }

  lemma GrowsTwice(a: seq<Item>, b: seq<Item>, c: seq<Item>)
    requires a <= b && b <= c
    ensures a <= c
  {
  }

  /** The entries before the first one whose last component is `after`. */
  ghost predicate FirstAfter(entries: seq<string>, n: nat) {
    && n <= |entries| && (forall k :: 0 <= k < n ==> !AfterDirectory(entries[k]))
    && (n < |entries| ==> AfterDirectory(entries[n]))
  }

  lemma {:induction false} TailIsFirstAfter(entries: seq<string>)
    ensures FirstAfter(entries, Tail(entries))
  {
    if entries != [] {
      PathIsAfterIff(entries[0]);
      TailIsFirstAfter(entries[1..]);
      var n := Tail(entries);
      assert n > 0 ==> FirstAfter(entries[1..], n - 1);
      assert forall k :: 0 < k < |entries| ==> entries[1..][k - 1] == entries[k];
      hide AfterDirectory;
    }
  }

  function HeadOf(head: seq<string>, packs: seq<string>): Visit -> bool {
    (v: Visit) => !v.after && OfHead(head, packs, v.pattern)
  }

  function OthersOf(head: seq<string>, packs: seq<string>): Visit -> bool {
    (v: Visit) => !v.after && OfOthers(head, packs, v.pattern)
  }

  ghost function AfterOf(packs: seq<string>): Visit -> bool {
    (v: Visit) => v.after && OfAfter(packs, v.pattern)
  }

  ghost function RestOf(rest: seq<string>): Visit -> bool {
    (v: Visit) => v.pattern in rest && (v.after <==> AfterDirectory(v.pattern))
  }

  lemma TailVisitsAre(rest: seq<string>)
    ensures forall v :: v in TailVisits(rest) <==> RestOf(rest)(v)
  {
    forall v: Visit
      ensures v in TailVisits(rest) <==> RestOf(rest)(v)
    {
      PathIsAfterIff(v.pattern);
      hide PathIsAfter;
      hide AfterDirectory;
      if v.pattern in rest && v.after == PathIsAfter(v.pattern) {
        var i :| 0 <= i < |rest| && rest[i] == v.pattern;
        assert TailVisits(rest)[i] == v;
      }
    }
  }

  /** The path in four stretches: the entries of 'runtimepath' before the first `after` entry,
      with the start bundles of those that are packs; the start bundles of the other packs; the
      `after` directories of all bundles, tagged; and the rest of 'runtimepath', tagged where the
      entry is an `after` directory. No directory is listed twice. */
  lemma SearchPathOrder(expand: Expand, runtimepath: string, packpath: string)
      returns (n: nat, a: nat, b: nat, c: nat)
    ensures var entries, packs, items :=
              TextItems(runtimepath), TextItems(packpath), Build(expand, runtimepath, packpath);
            && FirstAfter(entries, n) && Distinct(items)
            && Stretch(expand, items, 0, a, HeadOf(entries[..n], packs))
            && Stretch(expand, items, a, b, OthersOf(entries[..n], packs))
            && Stretch(expand, items, b, c, AfterOf(packs))
            && Stretch(expand, items, c, |items|, RestOf(entries[n..]))
  {
    var entries, packs := TextItems(runtimepath), TextItems(packpath);
    n := Tail(entries);
    var head := entries[..n];
    var h, o := HeadVisits(head, packs), Plainly(AllBundles(Others(packs, head)));
    var q, t := Afterwards(Queued(AllBundles(Spliced(head, packs) + Others(packs, head)))), TailVisits(entries[n..]);
    var items := Build(expand, runtimepath, packpath);
    BuildIs(expand, runtimepath, packpath);
    HeadVisitsAre(head, packs);
    OtherVisitsAre(head, packs);
    AfterVisitsAre(head, packs);
    TailVisitsAre(entries[n..]);
    assert forall v :: v in h <==> HeadOf(head, packs)(v);
    assert forall v :: v in o <==> OthersOf(head, packs)(v);
    assert forall v :: v in q <==> AfterOf(packs)(v);
    var none: seq<Item> := [];
    assert Distinct(none);
    hide *;
    TailIsFirstAfter(entries);
    FourParts(expand, h, o, q, t);
    var w1 := Walk(expand, none, h);
    var w2 := Walk(expand, w1, o);
    var w3 := Walk(expand, w2, q);
    WalkGrows(expand, none, h);
    WalkGrows(expand, w1, o);
    WalkGrows(expand, w2, q);
    WalkGrows(expand, w3, t);
    GrowsTwice(w2, w3, items);
    GrowsTwice(w1, w2, items);
    PartIsStretch(expand, none, h, items, HeadOf(head, packs));
    PartIsStretch(expand, w1, o, items, OthersOf(head, packs));
    PartIsStretch(expand, w2, q, items, AfterOf(packs));
    PartIsStretch(expand, w3, t, items, RestOf(entries[n..]));
    a, b, c := |w1|, |w2|, |w3|;
  }

  // ----- the order within the first stretch

  /** The path as far as the first k entries before the first `after` entry take it: the k-th
      entry adds its own directories, and if it is a pack, those of its packages and then those
      of its start directory. */
  lemma EntryOrder(expand: Expand, runtimepath: string, packpath: string, k: nat)
      returns (a: nat, b: nat, c: nat, d: nat)
    requires k < |TextItems(runtimepath)| && forall i :: 0 <= i <= k ==> !AfterDirectory(TextItems(runtimepath)[i])
    ensures var entries, packs, items :=
              TextItems(runtimepath), TextItems(packpath), Build(expand, runtimepath, packpath);
            var pack := entries[k];
            && Stretch(expand, items, 0, a, HeadOf(entries[..k], packs))
            && Stretch(expand, items, a, b, (v: Visit) => v == Visit(pack, false))
            && (pack in packs ==>
                  && Stretch(expand, items, b, c, (v: Visit) => v == Visit(pack + "/pack/*/start/*", false))
                  && Stretch(expand, items, c, d, (v: Visit) => v == Visit(pack + "/start/*", false)))
            && (pack !in packs ==> b == d)
            && d <= |items| && Stretch(expand, items, 0, d, HeadOf(entries[..k + 1], packs))
  {
    hide *;
    var entries, packs := TextItems(runtimepath), TextItems(packpath);
    var items, pack := Build(expand, runtimepath, packpath), entries[k];
    var before, own := HeadVisits(entries[..k], packs), [Visit(pack, false)];
    var one, two := [Visit(pack + "/pack/*/start/*", false)], [Visit(pack + "/start/*", false)];
    EntryVisits(entries, packs, k);
    HeadVisitsOf(entries[..k], packs);
    HeadVisitsOf(entries[..k + 1], packs);
    HeadGoesOn(expand, runtimepath, packpath, k + 1);
    var w0 := Walk(expand, [], before);
    var w1 := Walk(expand, w0, own);
    WalkConcat(expand, [], before, own + if pack in packs then one + two else []);
    WalkConcat(expand, w0, own, if pack in packs then one + two else []);
    WalkGrows(expand, [], before);
    WalkGrows(expand, w0, own);
    a, b := |w0|, |w1|;
    if pack in packs {
      WalkConcat(expand, w1, one, two);
      var w2 := Walk(expand, w1, one);
      var w3 := Walk(expand, w2, two);
      WalkGrows(expand, w1, one);
      WalkGrows(expand, w2, two);
      GrowsTwice(w2, w3, items);
      GrowsTwice(w1, w2, items);
      PartIsStretch(expand, w1, one, items, (v: Visit) => v == Visit(pack + "/pack/*/start/*", false));
      PartIsStretch(expand, w2, two, items, (v: Visit) => v == Visit(pack + "/start/*", false));
      c, d := |w2|, |w3|;
    } else {
      WalkNothing(expand, w1);
      c, d := b, b;
    }
    GrowsTwice(w0, w1, items);
    PartIsStretch(expand, [], before, items, HeadOf(entries[..k], packs));
    PartIsStretch(expand, w0, own, items, (v: Visit) => v == Visit(pack, false));
    PartIsStretch(expand, [], HeadVisits(entries[..k + 1], packs), items, HeadOf(entries[..k + 1], packs));
  }

  lemma EntryVisits(entries: seq<string>, packs: seq<string>, k: nat)
    requires k < |entries|
    ensures var pack := entries[k];
            HeadVisits(entries[..k + 1], packs)
            == HeadVisits(entries[..k], packs)
               + ([Visit(pack, false)]
                  + if pack in packs then [Visit(pack + "/pack/*/start/*", false)] + [Visit(pack + "/start/*", false)]
                    else [])
  {
    var pack := entries[k];
    assert entries[..k + 1] == entries[..k] + [pack];
    OneMoreHead(entries[..k], packs, pack);
    assert Plainly(Bundles(pack)) == [Visit(pack + "/pack/*/start/*", false)] + [Visit(pack + "/start/*", false)];
  }

  lemma HeadVisitsOf(head: seq<string>, packs: seq<string>)
    ensures forall v :: v in HeadVisits(head, packs) <==> HeadOf(head, packs)(v)
  {
    HeadVisitsAre(head, packs);
    hide HeadVisits;
    hide OfHead;
  }

  lemma WalkNothing(expand: Expand, items: seq<Item>)
    ensures Walk(expand, items, []) == items
  {
  }

  /** What the first entries make of the path is how the path begins. */
  lemma HeadGoesOn(expand: Expand, runtimepath: string, packpath: string, k: nat)
    requires k <= |TextItems(runtimepath)| && forall i :: 0 <= i < k ==> !AfterDirectory(TextItems(runtimepath)[i])
    ensures Walk(expand, [], HeadVisits(TextItems(runtimepath)[..k], TextItems(packpath)))
         <= Build(expand, runtimepath, packpath)
  {
    var entries, packs := TextItems(runtimepath), TextItems(packpath);
    var n := Tail(entries);
    TailIsFirstAfter(entries);
    assert k <= n;
    assert entries[..n][..k] == entries[..k];
    hide *;
    HeadBegins(expand, runtimepath, packpath);
    HeadSplits(entries[..n], packs, k);
    var h, more := HeadVisits(entries[..k], packs), HeadVisits(entries[..n][k..], packs);
    WalkConcat(expand, [], h, more);
    WalkGrows(expand, Walk(expand, [], h), more);
    GrowsTwice(Walk(expand, [], h), Walk(expand, [], h + more), Build(expand, runtimepath, packpath));
  }

  lemma BuildIs(expand: Expand, runtimepath: string, packpath: string)
    ensures var entries, packs := TextItems(runtimepath), TextItems(packpath);
            var head := entries[..Tail(entries)];
            Build(expand, runtimepath, packpath)
            == Walk(expand, [], HeadVisits(head, packs) + Plainly(AllBundles(Others(packs, head)))
                                + Afterwards(Queued(AllBundles(Spliced(head, packs) + Others(packs, head))))
                                + TailVisits(entries[Tail(entries)..]))
  {
    hide Walk;
    hide TextItems;
  }

  lemma HeadBegins(expand: Expand, runtimepath: string, packpath: string)
    ensures var entries := TextItems(runtimepath);
            Walk(expand, [], HeadVisits(entries[..Tail(entries)], TextItems(packpath)))
            <= Build(expand, runtimepath, packpath)
  {
    hide *;
    BuildIs(expand, runtimepath, packpath);
    var entries, packs := TextItems(runtimepath), TextItems(packpath);
    var n := Tail(entries);
    var head := entries[..n];
    var h, o := HeadVisits(head, packs), Plainly(AllBundles(Others(packs, head)));
    var q, t := Afterwards(Queued(AllBundles(Spliced(head, packs) + Others(packs, head)))), TailVisits(entries[n..]);
    FourParts(expand, h, o, q, t);
    var w1 := Walk(expand, [], h);
    var w2 := Walk(expand, w1, o);
    var w3 := Walk(expand, w2, q);
    WalkGrows(expand, w1, o);
    WalkGrows(expand, w2, q);
    WalkGrows(expand, w3, t);
    GrowsTwice(w2, w3, Walk(expand, w3, t));
    GrowsTwice(w1, w2, Walk(expand, w3, t));
  }

  lemma HeadStep(head: seq<string>, packs: seq<string>)
    requires head != []
    ensures HeadVisits(head, packs)
         == ([Visit(head[0], false)] + if head[0] in packs then Plainly(Bundles(head[0])) else [])
            + HeadVisits(head[1..], packs)
  {
    hide Plainly;
    hide Bundles;
  }

  lemma Regroup(a: seq<Visit>, b: seq<Visit>, c: seq<Visit>)
    ensures a + (b + c) == (a + b) + c
  {
  }

  lemma FirstOfTwo(a: seq<string>, b: seq<string>)
    requires a != []
    ensures a + b != [] && (a + b)[0] == a[0] && (a + b)[1..] == a[1..] + b
  {
  }

  lemma {:induction false} HeadConcat(a: seq<string>, b: seq<string>, packs: seq<string>)
    ensures HeadVisits(a + b, packs) == HeadVisits(a, packs) + HeadVisits(b, packs)
  {
    if a == [] {
      assert a + b == b && HeadVisits(a, packs) == [];
    } else {
      hide *;
      FirstOfTwo(a, b);
      HeadConcat(a[1..], b, packs);
      HeadStep(a, packs);
      HeadStep(a + b, packs);
      var first := [Visit(a[0], false)] + if a[0] in packs then Plainly(Bundles(a[0])) else [];
      Regroup(first, HeadVisits(a[1..], packs), HeadVisits(b, packs));
    }
  }

  lemma HeadSplits(head: seq<string>, packs: seq<string>, k: nat)
    requires k <= |head|
    ensures HeadVisits(head, packs) == HeadVisits(head[..k], packs) + HeadVisits(head[k..], packs)
  {
    assert head[..k] + head[k..] == head;
    HeadConcat(head[..k], head[k..], packs);
    hide HeadVisits;
  }

  // ----- lookups

  /** A directory's own trailing slashes give way to the one that joins it to a name. */
  lemma {:induction false} JoinSlashExact(dir: string, slashes: string, leaf: string)
    requires dir == "" || dir[|dir| - 1] != '/'
    requires forall i :: 0 <= i < |slashes| ==> slashes[i] == '/'
    ensures JoinSlash(dir + slashes, leaf) == dir + "/" + leaf
  {
    var all := dir + slashes;
    if slashes == "" {
      assert all == dir;
    } else {
      assert all[..|all| - 1] == dir + slashes[..|slashes| - 1];
      JoinSlashExact(dir, slashes[..|slashes| - 1], leaf);
    }
  }

  lemma {:induction false} MatchesConcat(files: Expand, dir: string, a: seq<string>, b: seq<string>)
    ensures Matches(files, dir, a + b) == Matches(files, dir, a) + Matches(files, dir, b)
  {
    if a == [] {
      assert a + b == b;
    } else {
      assert (a + b)[1..] == a[1..] + b;
      MatchesConcat(files, dir, a[1..], b);
    }
  }

  lemma {:induction false} AllMatchesConcat(files: Expand, a: seq<Item>, b: seq<Item>, patterns: seq<string>)
    ensures AllMatches(files, a + b, patterns) == AllMatches(files, a, patterns) + AllMatches(files, b, patterns)
  {
    if a == [] {
      assert a + b == b;
    } else {
      assert (a + b)[1..] == a[1..] + b;
      AllMatchesConcat(files, a[1..], b, patterns);
    }
  }

  /** A lookup goes directory by directory, and in each word by word: what it finds below two
      lists of directories, or for two lists of words below one directory, is what it finds for
      the first and then for the second; and for one word below one directory, what expands. */
  lemma FoundExact(files: Expand, a: seq<Item>, b: seq<Item>, item: Item, v: seq<string>, w: seq<string>, word: string)
    ensures Found(files, a + b, v, false) == Found(files, a, v, false) + Found(files, b, v, false)
    ensures Found(files, [item], v + w, false) == Found(files, [item], v, false) + Found(files, [item], w, false)
    ensures Found(files, [item], [word], false) == files(JoinSlash(item.path, word))
    ensures Found(files, [], v, false) == []
    ensures Found(files, a, v, true) == seq(|a|, i requires 0 <= i < |a| => a[i].path)
  {
    AllMatchesConcat(files, a, b, v);
    MatchesConcat(files, item.path, v, w);
    OneDirectory(files, item, v);
    OneDirectory(files, item, w);
    OneDirectory(files, item, v + w);
    OneDirectory(files, item, [word]);
    assert [word][1..] == [];
    hide AllMatches;
    hide JoinSlash;
  }

  lemma OneDirectory(files: Expand, item: Item, patterns: seq<string>)
    ensures AllMatches(files, [item], patterns) == Matches(files, item.path, patterns)
  {
    assert [item][1..] == [];
  }

  /** The words with a gap before each and one at the end. */
  function LaidOut(words: seq<string>, gaps: seq<string>, last: string): string
    requires |gaps| == |words|
  {
    if words == [] then last else gaps[0] + (words[0] + LaidOut(words[1..], gaps[1..], last))
  }

  predicate Gap(gap: string) {
    forall i :: 0 <= i < |gap| ==> gap[i] == ' ' || gap[i] == '\t'
  }

  predicate Word(w: string) {
    w != "" && forall i :: 0 <= i < |w| ==> w[i] != ' ' && w[i] != '\t'
  }

  predicate Laid(words: seq<string>, gaps: seq<string>, last: string) {
    && |gaps| == |words| && Gap(last)
    && (forall i :: 0 <= i < |words| ==> Word(words[i]) && Gap(gaps[i]))
    && (forall i :: 0 < i < |gaps| ==> gaps[i] != "")
  }

  lemma {:induction false} GapIsSkipped(gap: string, s: string)
    requires Gap(gap)
    ensures Words(gap + s) == Words(s)
  {
    if gap == "" {
      assert gap + s == s;
    } else {
      assert (gap + s)[0] == gap[0] && (gap + s)[1..] == gap[1..] + s;
      GapIsSkipped(gap[1..], s);
    }
  }

  lemma {:induction false} WordLengthIs(w: string, tail: string)
    requires forall i :: 0 <= i < |w| ==> w[i] != ' ' && w[i] != '\t'
    requires tail == "" || tail[0] == ' ' || tail[0] == '\t'
    ensures WordLength(w + tail) == |w|
  {
    if w == "" {
      assert w + tail == tail;
    } else {
      assert (w + tail)[0] == w[0] && (w + tail)[1..] == w[1..] + tail;
      WordLengthIs(w[1..], tail);
    }
  }

  /** The words of a name are what spaces and tabs separate, however many there are. */
  lemma {:induction false} NameWords(words: seq<string>, gaps: seq<string>, last: string)
    requires Laid(words, gaps, last)
    ensures Words(LaidOut(words, gaps, last)) == words
  {
    if words == [] {
      GapIsSkipped(last, "");
      assert last + "" == last;
    } else {
      var w, tail := words[0], LaidOut(words[1..], gaps[1..], last);
      assert Word(w) && Gap(gaps[0]);
      assert Laid(words[1..], gaps[1..], last);
      NameWords(words[1..], gaps[1..], last);
      GapIsSkipped(gaps[0], w + tail);
      WordLengthIs(w, tail);
      assert (w + tail)[..|w|] == w && (w + tail)[|w|..] == tail;
      assert words == [w] + words[1..];
    }
  }
}
