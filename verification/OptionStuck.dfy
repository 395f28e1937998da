/** Values of an option that a keyed merge does not settle, for new values that are not renewed.

    Each is built around a list that holds all other items of the new value. In a trap, an item
    is seen until the last key to be mentioned is, which drops the item before it, so that a
    backslash comes to stand there. Two backslashes at the start hide nothing until another item
    is put in front. Either way an item ends up hidden after the first pass, and the second adds
    it again (`Stuck`); `NotRenewedIsStuck` covers all cases. */
module OptionStuck {
  import opened CommaItems
  import opened OptionMerge
  import opened OptionSearch
  import opened OptionLaws
  import opened OptionTheorems
  import opened OptionPasses
  import opened OptionHidden

  // ----- an item that stays hidden makes the second merge add it

  lemma CountGrows(items: seq<string>, x: string, op: SetOp, p: string)
    requires op != Remove && Keyless(p) && x != ""
    ensures |Filter(MergeListItem(items, x, op), Is(p))| >= |Filter(items, Is(p))|
    ensures x == p && !Sees(items, p) ==> |Filter(MergeListItem(items, x, op), Is(p))| == |Filter(items, Is(p))| + 1
  {
    if x == p {
      SettledIffSees(items, p);
      FilterInsert(items, p, op, Is(p));
    } else {
      PlainUntouched(p, x);
      StepLeaves(items, x, op, Is(p));
    }
    hide Filter;
    hide InsertList;
  }

  lemma {:induction false} CountNeverFalls(items: seq<string>, news: seq<string>, op: SetOp, p: string)
    requires op != Remove && Keyless(p)
    ensures |Filter(MergeList(items, news, op), Is(p))| >= |Filter(items, Is(p))|
  {
    if news != [] {
      var n := |news| - 1;
      CountNeverFalls(items, news[..n], op, p);
      if news[n] != "" {
        CountGrows(MergeList(items, news[..n], op), news[n], op, p);
      }
      hide Filter;
      hide MergeListItem;
    }
  }

  predicate OthersSettled(items: seq<string>, news: seq<string>, p: string) {
    forall x :: x in news && x != "" && x != p ==> Settled(items, x)
  }

  lemma {:induction false} FirstIndex(news: seq<string>, p: string) returns (m: nat)
    requires p in news
    ensures m < |news| && news[m] == p && p !in news[..m]
  {
    if news[0] == p {
      m := 0;
    } else {
      assert news == [news[0]] + news[1..];
      m := FirstIndex(news[1..], p);
      assert news[..m + 1] == [news[0]] + news[1..][..m];
      m := m + 1;
    }
  }

  lemma Around(news: seq<string>, m: nat)
    requires m < |news|
    ensures news == news[..m] + ([news[m]] + news[m + 1..])
    ensures forall x :: x in news[..m] || x in news[m + 1..] ==> x in news
  {
  }

  lemma Stuck(once: seq<string>, news: seq<string>, op: SetOp, p: string)
    requires op != Remove && Keyless(p) && p in news && !Sees(once, p) && OthersSettled(once, news, p)
    ensures MergeList(once, news, op) != once
  {
    var m := FirstIndex(news, p);
    Around(news, m);
    MergeConcat(once, news[..m], [p] + news[m + 1..], op);
    assert EachSettled(once, news[..m]);
    EachSettledStays(once, news[..m], op);
    MergeConcat(once, [p], news[m + 1..], op);
    OneNew(once, p, op);
    CountGrows(once, p, op, p);
    CountNeverFalls(MergeListItem(once, p, op), news[m + 1..], op, p);
    hide *;
  }

  // ----- what a list sees

  lemma SeenHere(a: seq<string>, z: string, b: seq<string>)
    requires a == [] || EndRun(a[|a| - 1], |a| == 1) % 2 == 0
    ensures Sees(a + [z] + b, z)
  {
    var items := a + [z] + b;
    assert items[|a|] == z && Seen(items, |a|);
  }

  lemma HiddenHere(a: seq<string>, z: string, b: seq<string>)
    requires a != [] && EndRun(a[|a| - 1], |a| == 1) % 2 == 1 && z !in a && z !in b
    ensures !Sees(a + [z] + b, z)
  {
    var items := a + [z] + b;
    assert forall k :: 0 <= k < |a| ==> items[k] == a[k] && items[k] in a;
    assert forall k :: |a| < k < |items| ==> items[k] == b[k - |a| - 1] && items[k] in b;
    assert !Seen(items, |a|);
  }

  lemma AbsentIsUnseen(items: seq<string>, z: string)
    requires z !in items
    ensures !Sees(items, z)
  {
  }

  const ODD := "a\\"

  const PAIR := "\\\\"

  lemma Runs()
    ensures forall first :: EndRun(ODD, first) == 1
    ensures EndRun(PAIR, true) == 2 && EndRun(PAIR, false) == 1
  {
    assert ODD[..1] == "a" && PAIR[..1] == "\\" && "\\"[..0] == [];
    forall first
      ensures EndRun(ODD, first) == 1
    {
      assert EndRun("a", first) == 0;
    }
    assert EndRun("\\", true) == 1 && EndRun("\\", false) == 0;
  }

  // ----- a value that holds all other items

  function Without(news: seq<string>, out: seq<string>): seq<string> {
    Filter(news, (x: string) => x !in out)
  }

  function Base(news: seq<string>, out: seq<string>): seq<string> {
    MergeList([""], Without(news, out), Append)
  }

  lemma BaseIs(news: seq<string>, out: seq<string>)
    requires Clean(news) && AllConstant(news)
    ensures Base(news, out) != [] && Clean(Base(news, out))
    ensures forall y :: y in Base(news, out) ==> y == "" || (y in news && y !in out)
    ensures forall x :: x in news && x != "" && x !in out ==> Settled(Base(news, out), x)
  {
    var kept, base := Without(news, out), Base(news, out);
    FilterIn(news, (x: string) => x !in out);
    forall k | 0 <= k < |kept|
      ensures CommaFree(kept[k]) && NoBackslash(kept[k])
    {
      assert kept[k] in kept;
    }
    assert Clean([""]);
    CleanMerge([""], kept, Append);
    assert Fine("", kept, Append) && kept[..|kept|] == kept;
    EmptyText("");
    PassIs("", kept, |kept|, Append);
    hide Filter;
    hide MergeList;
    forall y | y in base && y != ""
      ensures y in news && y !in out
    {
      OnlyMentioned(kept, |kept|, Append, y);
    }
    forall x | x in news && x != "" && x !in out
      ensures Settled(base, x)
    {
      var k :| 0 <= k < |news| && news[k] == x;
      ConstantWithout(news, kept, x);
      ConstantIsSettled("", kept, |kept|, Append, x);
    }
  }

  lemma ConstantWithout(news: seq<string>, kept: seq<string>, x: string)
    requires Constant(news, x) && forall y :: y in kept ==> y in news
    ensures Constant(kept, x)
  {
    forall j | 0 <= j < |kept| && Touches(x, kept[j])
      ensures kept[j] == x
    {
      assert kept[j] in kept;
      var k :| 0 <= k < |news| && news[k] == kept[j];
    }
  }

  /** An item settled in a clean list is settled with more around it that has not its key. */
  lemma SettledBetween(a: seq<string>, mid: seq<string>, b: seq<string>, x: string)
    requires Clean(mid) && x != "" && Settled(mid, x) && (':' in x || a == [] || NoBackslash(a[|a| - 1]))
    requires ':' in x ==> forall w :: w in a || w in b ==> !Occurs(KeyOf(x), w, 0)
    ensures Settled(a + mid + b, x)
  {
    if ':' in x {
      var p := HasKey(KeyOf(x));
      FilterConcat(a + mid, b, p);
      FilterConcat(a, mid, p);
      FilterNone(a, p);
      FilterNone(b, p);
    } else {
      var k := FirstSeen(mid, x, 0);
      var items := a + mid + b;
      var at := |a| + k;
      assert items[at] == x;
      if at > 0 {
        assert items[at - 1] == if k > 0 then mid[k - 1] else a[|a| - 1];
        NoRun(items[at - 1], at == 1);
      }
      assert Seen(items, at);
      SettledIffSees(items, x);
    }
  }

  // ----- an arrangement around it

  /** The item has no key, or that of one left out. */
  predicate Foreign(out: seq<string>, w: string) {
    ':' in w ==> exists f :: f in out && ':' in f && Occurs(KeyOf(f), w, 0)
  }

  predicate AllForeign(out: seq<string>, items: seq<string>) {
    forall w :: w in items ==> Foreign(out, w)
  }

  lemma SameKeySameItem(news: seq<string>, x: string, f: string)
    requires AllConstant(news) && x in news && f in news && ':' in x && Occurs(KeyOf(x), f, 0)
    ensures x == f
  {
    var k :| 0 <= k < |news| && news[k] == x;
    var j :| 0 <= j < |news| && news[j] == f;
    assert Touches(x, news[j]);
  }

  lemma ForeignKey(news: seq<string>, out: seq<string>, w: string, x: string)
    requires AllConstant(news) && (forall y :: y in out ==> y in news) && Foreign(out, w)
    requires x in news && x !in out && ':' in x
    ensures !Occurs(KeyOf(x), w, 0)
  {
    if Occurs(KeyOf(x), w, 0) {
      KeyedHasColon(x, w);
      var f :| f in out && ':' in f && Occurs(KeyOf(f), w, 0);
      OneKey(x, f, w);
      SameKeySameItem(news, x, f);
    }
  }

  /** What is not left out is settled in the arrangement. */
  lemma RestSettled(news: seq<string>, out: seq<string>, a: seq<string>, c: seq<string>, x: string)
    requires Clean(news) && AllConstant(news) && (forall y :: y in out ==> y in news)
    requires AllForeign(out, a) && AllForeign(out, c) && (a == [] || NoBackslash(a[|a| - 1]))
    requires x in news && x != "" && x !in out
    ensures Settled(a + Base(news, out) + c, x)
  {
    BaseIs(news, out);
    if ':' in x {
      forall w | w in a || w in c
        ensures !Occurs(KeyOf(x), w, 0)
      {
        ForeignKey(news, out, w, x);
      }
    }
    hide *;
    SettledBetween(a, Base(news, out), c, x);
  }

  // ----- a trap, sprung by the first mention of a key

  /** The item z is seen as long as the second item with the key of f is there. */
  function Primed(f: string, z: string): seq<string> {
    [f, ODD, f + "x", z, ODD]
  }

  function Sprung(f: string, z: string): seq<string> {
    [f, ODD, z, ODD]
  }

  lemma KeyIsThere(f: string)
    requires ':' in f
    ensures Occurs(KeyOf(f), f, 0) && Occurs(KeyOf(f), f + "x", 0) && f + "x" != f && ':' in f + "x"
    ensures forall z :: ':' !in z ==> !Occurs(KeyOf(f), z, 0)
  {
    var n := FirstColon(f);
    assert (f + "x")[n] == ':';
    forall z | ':' !in z
      ensures !Occurs(KeyOf(f), z, 0)
    {
      if Occurs(KeyOf(f), z, 0) {
        KeyedHasColon(f, z);
      }
    }
  }

  lemma OddIsPlain()
    ensures Keyless(ODD) && !NoBackslash(ODD) && CommaFree(ODD)
    ensures Keyless(PAIR) && !NoBackslash(PAIR) && CommaFree(PAIR)
    ensures ODD != PAIR
  {
    assert ODD[1] == '\\' && PAIR[1] == '\\' && PAIR[0] != ODD[0];
  }

  lemma KeepFirstOfPrimed(f: string, z: string)
    requires ':' in f && ':' !in z
    ensures KeepFirst(Primed(f, z), KeyOf(f)) == Sprung(f, z)
  {
    KeyIsThere(f);
    OddIsPlain();
    var rest, lacks := Primed(f, z)[1..], LacksKey(KeyOf(f));
    assert rest == [ODD, f + "x", z, ODD] && rest[1..] == [f + "x", z, ODD];
    assert rest[1..][1..] == [z, ODD] && [z, ODD][1..] == [ODD] && [ODD][1..] == [];
    assert Filter([ODD], lacks) == [ODD];
    assert Filter([z, ODD], lacks) == [z] + [ODD];
    assert Filter(rest[1..], lacks) == [z, ODD];
    assert Filter(rest, lacks) == [ODD] + [z, ODD];
  }

  lemma Springs(pre: seq<string>, f: string, z: string, op: SetOp)
    requires ':' in f && ':' !in z && op != Remove && forall w :: w in pre ==> !Occurs(KeyOf(f), w, 0)
    ensures MergeListItem(pre + Primed(f, z), f, op) == pre + Sprung(f, z)
  {
    var items, key := pre + Primed(f, z), KeyOf(f);
    KeyIsThere(f);
    FirstKeyedIs(items, key, 0);
    assert items[|pre|] == f && forall k :: 0 <= k < |pre| ==> items[k] == pre[k] && items[k] in pre;
    assert FirstKeyed(items, key, 0) == |pre|;
    KeepFirstOfPrimed(f, z);
    NoneBefore(pre, Primed(f, z), key);
    hide KeepFirst;
    hide Occurs;
  }

  // ----- the two arrangements

  /** The key of f is mentioned first just before the n-th item. */
  predicate FirstMention(news: seq<string>, n: nat, f: string) {
    0 < n <= |news| && news[n - 1] == f && ':' in f && f !in news[..n - 1] && Clean(news) && AllConstant(news)
  }

  lemma {:induction false} TailStartIs(news: seq<string>, n: nat)
    requires n <= |news| && Clean(news) && AllConstant(news)
    ensures var b := TailStart(news, n); b > 0 ==> FirstMention(news, b, news[b - 1])
  {
    if n > 0 && !(':' in news[n - 1] && news[n - 1] !in news[..n - 1]) {
      TailStartIs(news, n - 1);
    }
  }

  lemma NoKeysWithoutStart(news: seq<string>, x: string)
    requires TailStart(news, |news|) == 0 && x in news
    ensures ':' !in x
  {
    var k :| 0 <= k < |news| && news[k] == x;
    if ':' in x {
      KeyedEarlier(news, k);
    }
  }

  lemma TrapIsForeign(out: seq<string>, f: string, z: string)
    requires f in out && ':' in f && ':' !in z
    ensures AllForeign(out, Primed(f, z)) && AllForeign(out, Sprung(f, z))
  {
    KeyIsThere(f);
    OddIsPlain();
    forall w | w in Primed(f, z)
      ensures Foreign(out, w)
    {
    }
    hide Foreign;
  }

  lemma NoKeyInBase(news: seq<string>, out: seq<string>, f: string)
    requires Clean(news) && AllConstant(news) && f in out && f in news && ':' in f
    ensures forall w :: w in Base(news, out) ==> !Occurs(KeyOf(f), w, 0)
  {
    BaseIs(news, out);
    KeyIsThere(f);
    forall w | w in Base(news, out)
      ensures !Occurs(KeyOf(f), w, 0)
    {
      if Occurs(KeyOf(f), w, 0) {
        SameKeySameItem(news, f, w);
      }
    }
    hide *;
  }

  /** Up to the first mention of f, every item is settled in the list with the trap. */
  lemma TrapSettles(news: seq<string>, n: nat, f: string, out: seq<string>, a: seq<string>, z: string)
    requires FirstMention(news, n, f) && Keyless(z) && z in out && f in out
    requires (forall y :: y in out ==> y in news) && AllForeign([], a) && (a == [] || NoBackslash(a[|a| - 1]))
    requires var before := a + Base(news, out) + Primed(f, z);
             forall y :: y in out && y != f && y != z ==> Settled(before, y)
    ensures EachSettled(a + Base(news, out) + Primed(f, z), news[..n - 1])
  {
    var base := Base(news, out);
    var before := a + base + Primed(f, z);
    InNews(news, f);
    TrapIsForeign(out, f, z);
    ForeignMore(a, out);
    SeenInTrap(a + base, f, z);
    assert forall x :: x in news[..n - 1] ==> x in news && x != f;
    assert Clean(news) && AllConstant(news);
    hide Base;
    hide Primed;
    hide Settled;
    hide Clean;
    hide AllConstant;
    hide AllForeign;
    hide FirstMention;
    hide NoBackslash;
    forall x | x in news[..n - 1] && x != ""
      ensures Settled(before, x)
    {
      if x !in out {
        RestSettled(news, out, a, Primed(f, z), x);
      }
    }
  }

  /** A value in which z is seen up to the first mention of f, and hidden from then on. */
  lemma TrapHides(news: seq<string>, n: nat, f: string, out: seq<string>, a: seq<string>, z: string, op: SetOp)
    requires FirstMention(news, n, f) && op != Remove && Keyless(z) && z in out && f in out
    requires (forall y :: y in out ==> y in news) && AllForeign([], a) && (a == [] || NoBackslash(a[|a| - 1]))
    requires var before := a + Base(news, out) + Primed(f, z);
             forall y :: y in out && y != f && y != z ==> Settled(before, y)
    ensures MergeList(a + Base(news, out) + Primed(f, z), news[..n], op) == a + Base(news, out) + Sprung(f, z)
  {
    var base := Base(news, out);
    var before := a + base + Primed(f, z);
    TrapSettles(news, n, f, out, a, z);
    EachSettledStays(before, news[..n - 1], op);
    NoKeyInBase(news, out, f);
    NoKeyAround(a, base, f);
    Springs(a + base, f, z, op);
    assert news[..n][..n - 1] == news[..n - 1] && news[..n][n - 1] == f;
    hide Base;
    hide Primed;
    hide Sprung;
    hide MergeListItem;
    hide Settled;
    hide EachSettled;
    hide AllForeign;
    hide Clean;
    hide AllConstant;
  }

  lemma NoKeyAround(a: seq<string>, base: seq<string>, f: string)
    requires ':' in f && AllForeign([], a) && forall w :: w in base ==> !Occurs(KeyOf(f), w, 0)
    ensures forall w :: w in a + base ==> !Occurs(KeyOf(f), w, 0)
  {
    KeyIsThere(f);
    hide KeyOf;
    hide Occurs;
  }

  lemma SeenInTrap(pre: seq<string>, f: string, z: string)
    requires NoBackslash(f) && Keyless(z)
    ensures Settled(pre + Primed(f, z), z)
  {
    var a := pre + [f, ODD, f + "x"];
    assert pre + Primed(f, z) == a + [z] + [ODD];
    NoRun(f + "x", false);
    SeenHere(a, z, [ODD]);
    SettledIffSees(pre + Primed(f, z), z);
  }

  /** A hidden item mentioned once is added once. */
  lemma InsertedOnce(items: seq<string>, tail: seq<string>, m: nat, op: SetOp)
    requires m < |tail| && Keyless(tail[m]) && op != Remove && !Sees(items, tail[m])
    requires tail[m] !in tail[..m] && tail[m] !in tail[m + 1..]
    requires OthersSettled(items, tail, tail[m]) && OthersSettled(InsertList(items, tail[m], op), tail, tail[m])
    ensures MergeList(items, tail, op) == InsertList(items, tail[m], op)
  {
    var p := tail[m];
    Around(tail, m);
    MergeConcat(items, tail[..m], [p] + tail[m + 1..], op);
    assert EachSettled(items, tail[..m]);
    EachSettledStays(items, tail[..m], op);
    MergeConcat(items, [p], tail[m + 1..], op);
    OneNew(items, p, op);
    SettledIffSees(items, p);
    assert EachSettled(InsertList(items, p, op), tail[m + 1..]);
    EachSettledStays(InsertList(items, p, op), tail[m + 1..], op);
    hide MergeList;
    hide Settled;
    hide InsertList;
    hide Sees;
  }

  lemma StillHidden(items: seq<string>, p: string)
    requires items != [] && EndRun(items[|items| - 1], |items| == 1) % 2 == 1 && !Sees(items, p)
    ensures !Sees(items + [p], p)
  {
    hide EndRun;
    var next := items + [p];
    assert forall k :: 0 <= k < |items| ==> next[k] == items[k] && (Seen(next, k) <==> Seen(items, k));
    assert !Seen(next, |items|);
  }

  lemma MentionedOnce(tail: seq<string>, m: nat)
    requires m < |tail| && !Twice(tail, tail[m])
    ensures tail[m] !in tail[..m] && tail[m] !in tail[m + 1..]
  {
    assert forall i :: 0 <= i < |tail| && i != m ==> tail[i] != tail[m];
    assert forall i :: 0 <= i < m ==> tail[..m][i] == tail[i];
    assert forall i :: m < i < |tail| ==> tail[m + 1..][i - (m + 1)] == tail[i];
  }

  /** What a tail makes of a list that hides an item, which it mentions at most once. */
  lemma TailHides(items: seq<string>, tail: seq<string>, op: SetOp, p: string)
    requires items != [] && op != Remove && Keyless(p) && !Sees(items, p) && !Twice(tail, p)
    requires p in tail ==> op == Append && EndRun(items[|items| - 1], |items| == 1) % 2 == 1
    requires OthersSettled(items, tail, p) && (p in tail ==> OthersSettled(InsertList(items, p, op), tail, p))
    ensures var once := MergeList(items, tail, op);
            !Sees(once, p) && (once == items || (p in tail && once == InsertList(items, p, op)))
  {
    if p in tail {
      var m := FirstIndex(tail, p);
      MentionedOnce(tail, m);
      InsertedOnce(items, tail, m, op);
      StillHidden(items, p);
    } else {
      EachSettledStays(items, tail, op);
    }
    hide EndRun;
  }

  lemma HiddenIsStuck(start: seq<string>, news: seq<string>, n: nat, op: SetOp, p: string)
    requires n <= |news| && op != Remove && Keyless(p) && p in news && !Twice(news[n..], p)
    requires var items := MergeList(start, news[..n], op);
             && items != [] && !Sees(items, p) && OthersSettled(items, news, p)
             && (p in news[n..] ==>
                   && op == Append && EndRun(items[|items| - 1], |items| == 1) % 2 == 1
                   && OthersSettled(InsertList(items, p, op), news, p))
    ensures var once := MergeList(start, news, op); MergeList(once, news, op) != once
  {
    var items, tail := MergeList(start, news[..n], op), news[n..];
    assert news == news[..n] + tail && forall x :: x in tail ==> x in news;
    MergeConcat(start, news[..n], tail, op);
    hide MergeList;
    hide Sees;
    hide Settled;
    hide EndRun;
    hide InsertList;
    TailHides(items, tail, op, p);
    Stuck(MergeList(start, news, op), news, op, p);
  }

  /** What is settled after the trap has sprung, with items without keys after it. */
  lemma SprungSettles(news: seq<string>, f: string, out: seq<string>, a: seq<string>, z: string, more: seq<string>)
    requires Clean(news) && AllConstant(news) && ':' in f && f in news && f in out && Keyless(z)
    requires (forall y :: y in out ==> y in news) && AllForeign([], a) && AllForeign([], more)
    requires a == [] || NoBackslash(a[|a| - 1])
    ensures forall x :: x in news && x != "" && (x == f || x !in out) ==>
              Settled(a + Base(news, out) + (Sprung(f, z) + more), x)
  {
    var base := Base(news, out);
    var pre, post := a + base, [ODD, z, ODD] + more;
    var c := Sprung(f, z) + more;
    TrapIsForeign(out, f, z);
    NoKeyInBase(news, out, f);
    KeyIsThere(f);
    OddIsPlain();
    assert a + base + c == pre + ([f] + post);
    FilterNone(pre, HasKey(KeyOf(f)));
    FilterNone(post, HasKey(KeyOf(f)));
    FilterConcat(pre, [f] + post, HasKey(KeyOf(f)));
    FilterConcat([f], post, HasKey(KeyOf(f)));
    FilterOne(f, HasKey(KeyOf(f)));
    forall x | x in news && x != "" && x !in out
      ensures Settled(a + base + c, x)
    {
      RestSettled(news, out, a, c, x);
    }
    hide Filter;
  }

  predicate StuckAt(items: seq<string>, news: seq<string>, op: SetOp) {
    && items != [] && AllCommaFree(items)
    && var once := MergeList(items, news, op); MergeList(once, news, op) != once
  }

  lemma CommaFreeParts(a: seq<string>, b: seq<string>)
    requires AllCommaFree(a) && AllCommaFree(b)
    ensures AllCommaFree(a + b)
  {
  }

  lemma TrapCommaFree(f: string, z: string)
    requires CommaFree(f) && CommaFree(z)
    ensures AllCommaFree(Primed(f, z))
  {
    OddIsPlain();
    hide ODD;
  }

  lemma SprungHides(pre: seq<string>, f: string, z: string)
    requires ':' in f && Keyless(z) && z != ODD && z !in pre
    ensures !Sees(pre + Sprung(f, z), z)
    ensures EndRun((pre + Sprung(f, z))[|pre| + 3], false) == 1
  {
    Runs();
    assert pre + Sprung(f, z) == (pre + [f, ODD]) + [z] + [ODD];
    HiddenHere(pre + [f, ODD], z, [ODD]);
  }

  /** What the trap leaves, with the item at the end or without. */
  lemma LeftByKey(news: seq<string>, f: string, p: string)
    requires Clean(news) && AllConstant(news) && f in news && ':' in f && p in news && Keyless(p)
    ensures var items := Base(news, [p, f]) + Sprung(f, p);
            OthersSettled(items, news, p) && OthersSettled(items + [p], news, p)
  {
    var out := [p, f];
    var base, trap := Base(news, out), Sprung(f, p);
    assert [] + base + (trap + []) == base + trap && [] + base + (trap + [p]) == base + trap + [p];
    hide Base;
    hide Sprung;
    hide Settled;
    SprungSettles(news, f, out, [], p, []);
    SprungSettles(news, f, out, [], p, [p]);
  }

  lemma HiddenInLeft(news: seq<string>, f: string, p: string)
    requires Clean(news) && AllConstant(news) && f in news && ':' in f && p in news && Keyless(p)
    ensures var items := Base(news, [p, f]) + Sprung(f, p);
            !Sees(items, p) && |items| > 1 && EndRun(items[|items| - 1], false) == 1
  {
    InNews(news, p);
    BaseIs(news, [p, f]);
    SprungHides(Base(news, [p, f]), f, p);
    hide Base;
    hide Sees;
  }

  lemma PrimedOne(news: seq<string>, n: nat, f: string, op: SetOp, p: string)
    requires FirstMention(news, n, f) && op != Remove && Keyless(p) && p in news
    ensures var base := Base(news, [p, f]);
            && AllCommaFree(base + Primed(f, p))
            && MergeList(base + Primed(f, p), news[..n], op) == base + Sprung(f, p)
  {
    var out := [p, f];
    var base := Base(news, out);
    InNews(news, p);
    InNews(news, f);
    BaseIs(news, out);
    assert [] + base + Primed(f, p) == base + Primed(f, p) && [] + base + Sprung(f, p) == base + Sprung(f, p);
    assert AllForeign([], []) && AllCommaFree(base);
    assert Clean(news) && AllConstant(news) && forall y :: y in out ==> y == p || y == f;
    hide *;
    TrapCommaFree(f, p);
    CommaFreeParts(base, Primed(f, p));
    TrapHides(news, n, f, out, [], p, op);
  }

  lemma InsertedLast(items: seq<string>, p: string)
    requires |items| > 1
    ensures InsertList(items, p, Append) == items + [p]
  {
  }

  /** The item is hidden when the tail begins, which does not mention it often enough. */
  lemma HiddenByKey(news: seq<string>, n: nat, f: string, op: SetOp, p: string)
    requires FirstMention(news, n, f) && op != Remove && Keyless(p) && p in news
    requires !Twice(news[n..], p) && (p in news[n..] ==> op == Append)
    ensures StuckAt(Base(news, [p, f]) + Primed(f, p), news, op)
  {
    var start, items := Base(news, [p, f]) + Primed(f, p), Base(news, [p, f]) + Sprung(f, p);
    assert start != [];
    LeftByKey(news, f, p);
    HiddenInLeft(news, f, p);
    PrimedOne(news, n, f, op, p);
    InsertedLast(items, p);
    hide *;
    HiddenIsStuck(start, news, n, op, p);
  }

  lemma InNews(news: seq<string>, x: string)
    requires Clean(news) && x in news
    ensures CommaFree(x) && NoBackslash(x) && x != ODD && x != PAIR
  {
    var k :| 0 <= k < |news| && news[k] == x;
    OddIsPlain();
  }

  /** The same of a value without keys that mentions the item once. */
  lemma HiddenWithoutKey(news: seq<string>, p: string)
    requires Clean(news) && AllConstant(news) && (forall x :: x in news ==> ':' !in x)
    requires Keyless(p) && p in news && !Twice(news, p)
    ensures StuckAt(Base(news, [p]) + [ODD], news, Append)
  {
    var out := [p];
    var base := Base(news, out);
    var items := base + [ODD];
    InNews(news, p);
    BaseIs(news, out);
    OddIsPlain();
    Runs();
    assert [] + base + [ODD] == items && [] + base + [ODD, p] == items + [p];
    assert forall w :: w in [ODD] || w in [ODD, p] ==> Foreign(out, w);
    forall x | x in news && x != "" && x != p
      ensures Settled(items, x) && Settled(items + [p], x)
    {
      RestSettled(news, out, [], [ODD], x);
      RestSettled(news, out, [], [ODD, p], x);
    }
    CommaFreeParts(base, [ODD]);
    AbsentIsUnseen(items, p);
    assert news[..0] == [] && news[0..] == news && |items| > 1;
    assert MergeList(items, news[..0], Append) == items && InsertList(items, p, Append) == items + [p];
    hide *;
    HiddenIsStuck(items, news, 0, Append, p);
  }

  /** An item put in front at its first mention hides another that the tail mentions no more. */
  lemma InFrontIsStuck(start: seq<string>, news: seq<string>, n: nat, i: nat, p: string)
    requires n <= i < |news| && Keyless(news[i]) && news[i] !in news[n..i]
    requires Keyless(p) && p in news && p !in news[i + 1..]
    requires var items, q := MergeList(start, news[..n], Prepend), news[i];
             && items != [""] && !Sees(items, q) && !Sees([q] + items, p)
             && OthersSettled(items, news, q) && OthersSettled([q] + items, news, p)
    ensures var once := MergeList(start, news, Prepend); MergeList(once, news, Prepend) != once
  {
    var items, q, l, r := MergeList(start, news[..n], Prepend), news[i], news[n..i], news[i + 1..];
    assert news == news[..n] + (l + ([q] + r));
    assert forall x :: x in l || x in r ==> x in news;
    hide MergeList;
    hide Sees;
    hide Settled;
    MergeConcat(start, news[..n], l + ([q] + r), Prepend);
    MergeConcat(items, l, [q] + r, Prepend);
    EachSettledStays(items, l, Prepend);
    MergeConcat(items, [q], r, Prepend);
    OneNew(items, q, Prepend);
    SettledIffSees(items, q);
    Unsettled(items, q);
    EachSettledStays([q] + items, r, Prepend);
    Stuck([q] + items, news, Prepend, p);
  }

  lemma Unsettled(items: seq<string>, q: string)
    requires Keyless(q) && !Settled(items, q) && items != [""]
    ensures MergeListItem(items, q, Prepend) == [q] + items
  {
  }

  /** Two backslashes at the start hide nothing, and with an item in front they hide one. */
  lemma PairHides(p: string, q: string, c: seq<string>)
    requires Keyless(p) && Keyless(q) && p != q && p != PAIR && p !in c
    ensures Settled([PAIR, p] + c, p) && Settled([q, PAIR, p] + c, q) && !Sees([q, PAIR, p] + c, p)
  {
    Runs();
    assert [PAIR, p] + c == [PAIR] + [p] + c;
    assert [q, PAIR, p] + c == [] + [q] + ([PAIR, p] + c) && [q, PAIR, p] + c == [q, PAIR] + [p] + c;
    SeenHere([PAIR], p, c);
    SeenHere([], q, [PAIR, p] + c);
    HiddenHere([q, PAIR], p, c);
    SettledIffSees([PAIR, p] + c, p);
    SettledIffSees([q, PAIR, p] + c, q);
  }

  lemma PairIsForeign(p: string, q: string)
    requires Keyless(p) && Keyless(q)
    ensures AllForeign([], [PAIR, p]) && AllForeign([], [q, PAIR, p])
  {
    OddIsPlain();
  }

  function TwoTraps(news: seq<string>, f: string, p: string, q: string, trap: seq<string>): seq<string> {
    [PAIR, p] + Base(news, [p, q, f]) + trap
  }

  predicate Others(news: seq<string>, f: string, p: string, q: string) {
    && Clean(news) && AllConstant(news) && f in news && ':' in f
    && Keyless(p) && Keyless(q) && p in news && q in news && p != q
  }

  lemma BothSettled(news: seq<string>, f: string, p: string, q: string)
    requires Others(news, f, p, q)
    ensures var items := TwoTraps(news, f, p, q, Sprung(f, q));
            OthersSettled(items, news, q) && OthersSettled([q] + items, news, p)
  {
    var out, a, b := [p, q, f], [PAIR, p], [q, PAIR, p];
    var base, trap := Base(news, out), Sprung(f, q);
    var items := TwoTraps(news, f, p, q, trap);
    hide PAIR;
    hide Base;
    hide Sprung;
    hide TwoTraps;
    hide Settled;
    hide Sees;
    hide Keyless;
    hide Clean;
    hide AllConstant;
    hide NoBackslash;
    TwoTrapsAre(news, f, p, q, trap);
    assert a + base + (trap + []) == items && b + base + (trap + []) == [q] + items;
    InNews(news, p);
    assert AllForeign([], []);
    hide AllForeign;
    PairIsForeign(p, q);
    PairHidesInBase(news, f, p, q);
    SprungSettles(news, f, out, a, q, []);
    SprungSettles(news, f, out, b, q, []);
  }

  lemma PairHidesInBase(news: seq<string>, f: string, p: string, q: string)
    requires Others(news, f, p, q)
    ensures var c := Base(news, [p, q, f]) + Sprung(f, q);
            Settled([PAIR, p] + c, p) && Settled([q, PAIR, p] + c, q) && !Sees([q, PAIR, p] + c, p)
  {
    var base := Base(news, [p, q, f]);
    InNews(news, p);
    BaseIs(news, [p, q, f]);
    PairHides(p, q, base + Sprung(f, q));
  }

  lemma BothHidden(news: seq<string>, f: string, p: string, q: string)
    requires Others(news, f, p, q)
    ensures var items := TwoTraps(news, f, p, q, Sprung(f, q));
            !Sees(items, q) && !Sees([q] + items, p) && |items| > 1
  {
    var base := Base(news, [p, q, f]);
    InNews(news, q);
    BaseIs(news, [p, q, f]);
    NotThere(base, p, q);
    assert ':' in f && Keyless(q) && q != ODD;
    hide *;
    TwoTrapsAre(news, f, p, q, Sprung(f, q));
    SprungHides([PAIR, p] + base, f, q);
    PairHidesInBase(news, f, p, q);
  }

  lemma NotThere(base: seq<string>, p: string, q: string)
    requires q !in base && q != p && q != PAIR
    ensures q !in [PAIR, p] + base
  {
    hide PAIR;
  }

  lemma TwoTrapsAre(news: seq<string>, f: string, p: string, q: string, trap: seq<string>)
    ensures var items, base := TwoTraps(news, f, p, q, trap), Base(news, [p, q, f]);
            && |items| > 1 && items == [PAIR, p] + base + trap && items == [PAIR, p] + (base + trap)
            && [q] + items == [q, PAIR, p] + (base + trap)
  {
    hide PAIR;
    hide Base;
  }

  lemma PrimedTwo(news: seq<string>, n: nat, f: string, p: string, q: string)
    requires FirstMention(news, n, f) && Others(news, f, p, q)
    ensures MergeList(TwoTraps(news, f, p, q, Primed(f, q)), news[..n], Prepend)
         == TwoTraps(news, f, p, q, Sprung(f, q))
    ensures AllCommaFree(TwoTraps(news, f, p, q, Primed(f, q)))
  {
    var out, a := [p, q, f], [PAIR, p];
    var base := Base(news, out);
    InNews(news, p);
    InNews(news, q);
    InNews(news, f);
    BaseIs(news, out);
    OddIsPlain();
    PairIsForeign(p, q);
    PrimedSettles(news, f, p, q);
    TrapCommaFree(f, q);
    CommaFreeParts(a, base);
    CommaFreeParts(a + base, Primed(f, q));
    hide PAIR;
    hide Base;
    hide Primed;
    hide Sprung;
    hide Settled;
    TrapHides(news, n, f, out, a, q, Prepend);
  }

  lemma PrimedSettles(news: seq<string>, f: string, p: string, q: string)
    requires Others(news, f, p, q)
    ensures Settled(TwoTraps(news, f, p, q, Primed(f, q)), p)
  {
    var c := Base(news, [p, q, f]) + Primed(f, q);
    assert TwoTraps(news, f, p, q, Primed(f, q)) == [PAIR] + [p] + c;
    Runs();
    SeenHere([PAIR], p, c);
    SettledIffSees([PAIR] + [p] + c, p);
  }

  /** The item is hidden when another is put in front, after its last mention. */
  lemma HiddenByOther(news: seq<string>, n: nat, f: string, i: nat, p: string)
    requires FirstMention(news, n, f) && n <= i < |news| && Keyless(news[i]) && news[i] !in news[n..i]
    requires Keyless(p) && p != news[i] && p in news && p !in news[i + 1..]
    ensures StuckAt(TwoTraps(news, f, p, news[i], Primed(f, news[i])), news, Prepend)
  {
    var q := news[i];
    BothSettled(news, f, p, q);
    BothHidden(news, f, p, q);
    PrimedTwo(news, n, f, p, q);
    assert TwoTraps(news, f, p, q, Primed(f, q)) != [];
    hide *;
    InFrontIsStuck(TwoTraps(news, f, p, q, Primed(f, q)), news, n, i, p);
  }

  /** The same of a value without keys. */
  lemma HiddenByOtherWithoutKey(news: seq<string>, i: nat, p: string)
    requires Clean(news) && AllConstant(news) && (forall x :: x in news ==> ':' !in x)
    requires i < |news| && Keyless(news[i]) && news[i] !in news[..i]
    requires Keyless(p) && p != news[i] && p in news && p !in news[i + 1..]
    ensures StuckAt([PAIR, p] + Base(news, [p, news[i]]), news, Prepend)
  {
    var q := news[i];
    var base := Base(news, [p, q]);
    var items := [PAIR, p] + base;
    InNews(news, p);
    InNews(news, q);
    BaseIs(news, [p, q]);
    OddIsPlain();
    assert AllCommaFree([PAIR, p]);
    NotThere(base, p, q);
    NoNews(items, news);
    assert |items| > 1 && news[0..i] == news[..i];
    assert [q] + items == [q, PAIR, p] + base;
    hide *;
    PairHides(p, q, base);
    PairSettles(news, p, q);
    CommaFreeParts([PAIR, p], base);
    AbsentIsUnseen(items, q);
    InFrontIsStuck(items, news, 0, i, p);
    IsStuck(items, news, Prepend);
  }

  lemma NoNews(items: seq<string>, news: seq<string>)
    ensures MergeList(items, news[..0], Prepend) == items
  {
    assert news[..0] == [];
  }

  lemma IsStuck(items: seq<string>, news: seq<string>, op: SetOp)
    requires items != [] && AllCommaFree(items)
    requires var once := MergeList(items, news, op); MergeList(once, news, op) != once
    ensures StuckAt(items, news, op)
  {
  }

  /** What the pair leaves alone, with the other item in front or without. */
  lemma PairSettles(news: seq<string>, p: string, q: string)
    requires Clean(news) && AllConstant(news) && Keyless(p) && Keyless(q) && p != q && p in news && q in news
    ensures var items := [PAIR, p] + Base(news, [p, q]);
            OthersSettled(items, news, q) && OthersSettled([q] + items, news, p)
  {
    var out, a, b := [p, q], [PAIR, p], [q, PAIR, p];
    var base := Base(news, out);
    var items := a + base;
    InNews(news, p);
    BaseIs(news, out);
    PairIsForeign(p, q);
    PairHides(p, q, base);
    assert a + base + [] == items && b + base + [] == [q] + items && b + base == [q] + items;
    assert NoBackslash(a[|a| - 1]) && NoBackslash(b[|b| - 1]) && AllForeign(out, []);
    hide PAIR;
    hide Base;
    hide Settled;
    hide Clean;
    hide AllConstant;
    hide NoBackslash;
    forall x | x in news && x != "" && x !in out
      ensures Settled(items, x) && Settled([q] + items, x)
    {
      ForeignMore(a, out);
      ForeignMore(b, out);
      RestSettled(news, out, a, [], x);
      RestSettled(news, out, b, [], x);
    }
  }

  lemma ForeignMore(a: seq<string>, out: seq<string>)
    requires AllForeign([], a)
    ensures AllForeign(out, a)
  {
  }

  // ----- a value that is not renewed

  lemma TailHas(news: seq<string>, n: nat, i: nat)
    requires n <= |news| && i < |news| - n
    ensures news[n..][i] == news[n + i] && news[n..][..i] == news[n..n + i] && news[n..][i + 1..] == news[n + i + 1..]
  {
  }

  lemma NotAfterOthers(tail: seq<string>, p: string) returns (i: nat)
    requires p in tail && !AfterOthers(tail, p)
    ensures i < |tail| && Keyless(tail[i]) && tail[i] != p && tail[i] !in tail[..i] && p !in tail[i + 1..]
  {
    i :| 0 <= i < |tail| && Keyless(tail[i]) && tail[i] != p && tail[i] !in tail[..i] && p !in tail[i + 1..];
  }

  lemma AbsentIsNotTwice(tail: seq<string>, p: string)
    requires p !in tail
    ensures !Twice(tail, p)
  {
  }

  lemma StuckWithKey(news: seq<string>, n: nat, f: string, op: SetOp, p: string) returns (items: seq<string>)
    requires FirstMention(news, n, f) && op != Remove && p in news && Keyless(p) && !RenewedIn(news[n..], op, p)
    ensures StuckAt(items, news, op)
  {
    var tail := news[n..];
    hide StuckAt;
    if op == Prepend && p in tail {
      var i := NotAfterOthers(tail, p);
      TailHas(news, n, i);
      hide *;
      HiddenByOther(news, n, f, n + i, p);
      items := TwoTraps(news, f, p, news[n + i], Primed(f, news[n + i]));
    } else {
      assert op == Append || p !in tail;
      assert op == Append ==> !Twice(tail, p);
      hide *;
      if p !in tail {
        AbsentIsNotTwice(tail, p);
      }
      HiddenByKey(news, n, f, op, p);
      items := Base(news, [p, f]) + Primed(f, p);
    }
  }

  lemma StuckWithoutKey(news: seq<string>, op: SetOp, p: string) returns (items: seq<string>)
    requires op != Remove && Clean(news) && AllConstant(news) && (forall x :: x in news ==> ':' !in x)
    requires p in news && Keyless(p) && !RenewedIn(news, op, p)
    ensures StuckAt(items, news, op)
  {
    hide StuckAt;
    if op == Prepend {
      var i := NotAfterOthers(news, p);
      HiddenByOtherWithoutKey(news, i, p);
      items := [PAIR, p] + Base(news, [p, news[i]]);
    } else {
      HiddenWithoutKey(news, p);
      items := Base(news, [p]) + [ODD];
    }
  }

  lemma NotRenewedIsStuck(news: seq<string>, op: SetOp) returns (items: seq<string>)
    requires op != Remove && Clean(news) && AllConstant(news) && !Renewed(news, op)
    ensures StuckAt(items, news, op)
  {
    var n := TailStart(news, |news|);
    var p :| p in news && Keyless(p) && !RenewedIn(news[n..], op, p);
    TailStartIs(news, |news|);
    hide *;
    if n > 0 {
      items := StuckWithKey(news, n, news[n - 1], op, p);
    } else {
      forall x | x in news
        ensures ':' !in x
      {
        NoKeysWithoutStart(news, x);
      }
      assert news[0..] == news;
      items := StuckWithoutKey(news, op, p);
    }
  }
}
