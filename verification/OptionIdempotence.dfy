/** For which new values a keyed merge is idempotent, whatever the option's value. */
module OptionIdempotence {
  import opened CommaItems
  import opened OptionMerge
  import opened OptionLaws
  import opened OptionTheorems
  import opened OptionPasses
  import opened OptionHidden
  import opened OptionStuck

  // ----- the theorem

  ghost predicate TwiceIsOnce(kind: ListKind, nodup: bool, origval: string, newval: string, op: SetOp) {
    var once := Merge(kind, nodup, origval, newval, op); Merge(kind, nodup, once, newval, op) == once
  }

  /** A second merge changes nothing, whatever the value was, if it has no backslashes. */
  ghost predicate Idempotent(kind: ListKind, nodup: bool, newval: string, op: SetOp) {
    forall origval :: NoBackslash(origval) ==> TwiceIsOnce(kind, nodup, origval, newval, op)
  }

  /** A keyed merge is idempotent for every value of the option exactly if the new value is
      steady. */
  lemma MergingTwiceIff(kind: ListKind, nodup: bool, newval: string, op: SetOp)
    requires GoesKeyed(kind, newval) && NoBackslash(newval) && op != Remove
    ensures Idempotent(kind, nodup, newval, op) <==> Steady(Items(newval))
  {
    CleanItems(newval);
    if Steady(Items(newval)) {
      forall origval | NoBackslash(origval)
        ensures TwiceIsOnce(kind, nodup, origval, newval, op)
      {
        SteadyMerge(kind, nodup, origval, newval, op);
      }
    } else {
      UnsteadyMerge(kind, nodup, newval, op);
    }
  }

  /** With backslashes on either side the same holds of a new value whose items all name
      keys. */
  lemma KeyedTwiceIff(kind: ListKind, nodup: bool, newval: string, op: SetOp)
    requires GoesKeyed(kind, newval) && AllKeyed(Items(newval)) && op != Remove
    ensures (forall origval :: TwiceIsOnce(kind, nodup, origval, newval, op)) <==> Steady(Items(newval))
  {
    if Steady(Items(newval)) {
      forall origval
        ensures TwiceIsOnce(kind, nodup, origval, newval, op)
      {
        SteadyMerge(kind, nodup, origval, newval, op);
      }
    } else {
      UnsteadyMerge(kind, nodup, newval, op);
    }
  }

  /** Backslashes in the option's value can hide items without keys. A new value that has none
      and gives each key one value is idempotent for every value of the option exactly if it is
      renewed. */
  lemma HiddenTwiceIff(kind: ListKind, nodup: bool, newval: string, op: SetOp)
    requires GoesKeyed(kind, newval) && NoBackslash(newval) && AllConstant(Items(newval)) && op != Remove
    ensures (forall origval :: TwiceIsOnce(kind, nodup, origval, newval, op)) <==> Renewed(Items(newval), op)
  {
    var news := Items(newval);
    CleanItems(newval);
    hide *;
    if Renewed(news, op) {
      forall origval
        ensures TwiceIsOnce(kind, nodup, origval, newval, op)
      {
        RenewedIsSettled(Items(origval), news, op);
        EachSettledStays(MergeList(Items(origval), news, op), news, op);
        TwiceIsListTwice(kind, nodup, origval, newval, op);
      }
    } else {
      var items := NotRenewedIsStuck(news, op);
      StuckText(kind, nodup, items, newval, op);
    }
  }

  /** The second merge of the texts is the second merge of the lists. */
  lemma TwiceIsListTwice(kind: ListKind, nodup: bool, origval: string, newval: string, op: SetOp)
    requires GoesKeyed(kind, newval)
    ensures var once := MergeList(Items(origval), Items(newval), op);
            TwiceIsOnce(kind, nodup, origval, newval, op) <==> MergeList(once, Items(newval), op) == once
  {
    hide *;
    var once := Merge(kind, nodup, origval, newval, op);
    var twice := Merge(kind, nodup, once, newval, op);
    MergeIsList(kind, nodup, origval, newval, op);
    MergeIsList(kind, nodup, once, newval, op);
    SameTexts(twice, once);
    TwiceIs(kind, nodup, origval, newval, op);
  }

  lemma TwiceIs(kind: ListKind, nodup: bool, origval: string, newval: string, op: SetOp)
    ensures var once := Merge(kind, nodup, origval, newval, op);
            TwiceIsOnce(kind, nodup, origval, newval, op) <==> Merge(kind, nodup, once, newval, op) == once
  {
    hide Merge;
  }

  lemma SameTexts(s: string, t: string)
    ensures s == t <==> Items(s) == Items(t)
  {
    assert Join(Items(s)) == s && Join(Items(t)) == t;
  }

  lemma StuckText(kind: ListKind, nodup: bool, items: seq<string>, newval: string, op: SetOp)
    requires GoesKeyed(kind, newval) && StuckAt(items, Items(newval), op)
    ensures !TwiceIsOnce(kind, nodup, Join(items), newval, op)
  {
    JoinItems(items);
    TwiceIsListTwice(kind, nodup, Join(items), newval, op);
    hide MergeList;
    hide TwiceIsOnce;
  }

  lemma SteadyMerge(kind: ListKind, nodup: bool, origval: string, newval: string, op: SetOp)
    requires GoesKeyed(kind, newval) && Fine(origval, Items(newval), op) && Steady(Items(newval))
    ensures TwiceIsOnce(kind, nodup, origval, newval, op)
  {
    KeyedMerge(kind, nodup, origval, newval, op);
    KeyedMerge(kind, nodup, Merge(kind, nodup, origval, newval, op), newval, op);
    hide Merge;
    hide MergeEach;
    hide Fine;
    hide Steady;
    SteadyIsIdempotent(origval, Items(newval), op);
  }

  lemma FindUnsteady(news: seq<string>) returns (i: nat, j: nat)
    requires !Steady(news)
    ensures Unsteady(news, i, j)
  {
    i, j :| 0 <= i < |news| && 0 <= j < |news| && Moving(news, j) && Still(news, i) && !(i < j);
    MovingIsNotStill(news, j);
  }

  lemma UnsteadyMerge(kind: ListKind, nodup: bool, newval: string, op: SetOp)
    requires GoesKeyed(kind, newval) && Fine("", Items(newval), op) && !Steady(Items(newval))
    ensures !TwiceIsOnce(kind, nodup, "", newval, op) && NoBackslash("")
  {
    assert NoBackslash("");
    var i, j := FindUnsteady(Items(newval));
    KeyedMerge(kind, nodup, "", newval, op);
    KeyedMerge(kind, nodup, Merge(kind, nodup, "", newval, op), newval, op);
    hide Merge;
    hide MergeEach;
    hide Items;
    hide Fine;
    hide Steady;
    hide Unsteady;
    UnsteadyMoves(Items(newval), i, j, op);
  }

  /** Two items of the new value with one key are the same item. */
  predicate Consistent(news: seq<string>) {
    forall i, j :: 0 <= i < |news| && 0 <= j < |news| && ':' in news[i] && Occurs(KeyOf(news[i]), news[j], 0) ==>
        news[i] == news[j]
  }

  lemma ConsistentIsSteady(news: seq<string>)
    requires Consistent(news)
    ensures Steady(news)
  {
    forall j | 0 <= j < |news|
      ensures !Moving(news, j)
    {
      if Moving(news, j) {
        MovingVaries(news, j);
      }
    }
  }

  /** Merging a consistent value a second time changes nothing. */
  lemma MergingTwiceIsMergingOnce(kind: ListKind, nodup: bool, origval: string, newval: string, op: SetOp)
    requires GoesKeyed(kind, newval) && NoBackslash(origval) && NoBackslash(newval) && op != Remove
    requires Consistent(Items(newval))
    ensures var once := Merge(kind, nodup, origval, newval, op); Merge(kind, nodup, once, newval, op) == once
  {
    ConsistentIsSteady(Items(newval));
    CleanItems(newval);
    SteadyMerge(kind, nodup, origval, newval, op);
  }

  // ----- two values that give a key twice

  lemma ThreeItems(items: seq<string>, x: string, y: string, z: string, op: SetOp)
    requires x != "" && y != "" && z != ""
    ensures MergeList(items, [x, y, z], op) == MergeListItem(MergeListItem(MergeListItem(items, x, op), y, op), z, op)
  {
    hide MergeListItem;
    assert [x, y, z][..2] == [x, y] && [x, y][..1] == [x] && [x][..0] == [];
    assert MergeList(items, [x], op) == MergeListItem(items, x, op);
    assert MergeList(items, [x, y], op) == MergeListItem(MergeListItem(items, x, op), y, op);
  }

  lemma FirstPass()
    ensures MergeListItem([""], "a:1", Append) == ["a:1"]
    ensures MergeListItem(["a:1"], "a:2", Append) == ["a:2"]
    ensures MergeListItem(["a:2"], "b:1", Append) == ["a:2", "b:1"]
  {
    assert KeyOf("a:1") == "a:" && KeyOf("a:2") == "a:" && KeyOf("b:1") == "b:";
  }

  lemma AgainFirst()
    ensures MergeListItem(["a:2", "b:1"], "a:1", Append) == ["b:1", "a:1"]
  {
    assert KeyOf("a:1") == "a:" && ["a:2", "b:1"][1..] == ["b:1"] && ["b:1"][1..] == [];
    assert Filter(["b:1"], LacksKey("a:")) == ["b:1"];
    assert Filter(["a:2", "b:1"], LacksKey("a:")) == ["b:1"];
  }

  lemma AgainPass()
    ensures MergeListItem(["a:2", "b:1"], "a:1", Append) == ["b:1", "a:1"]
    ensures MergeListItem(["b:1", "a:1"], "a:2", Append) == ["b:1", "a:2"]
    ensures MergeListItem(["b:1", "a:2"], "b:1", Append) == ["b:1", "a:2"]
  {
    AgainFirst();
    assert KeyOf("a:2") == "a:" && KeyOf("b:1") == "b:" && ["b:1"][1..] == [];
    assert Filter(["b:1"], LacksKey("a:")) == ["b:1"];
  }

  lemma TwoItems(x: string, y: string)
    requires CommaFree(x) && CommaFree(y)
    ensures Join([x, y]) == x + "," + y && Items(x + "," + y) == [x, y]
  {
    assert [x, y][1..] == [y];
    JoinItems([x, y]);
  }

  lemma OneItem(x: string)
    requires CommaFree(x)
    ensures Items(x) == [x]
  {
    JoinItems([x]);
  }

  lemma TheThree()
    ensures Items("a:1,a:2,b:1") == ["a:1", "a:2", "b:1"]
    ensures "a:1" + "," + ("a:2" + "," + "b:1") == "a:1,a:2,b:1"
  {
    var x, y, z := "a:1", "a:2", "b:1";
    assert [x, y, z][1..] == [y, z];
    TwoItems(y, z);
    assert Join([x, y, z]) == x + "," + (y + "," + z);
    hide Join;
    hide Items;
    JoinItems([x, y, z]);
    assert x + "," + (y + "," + z) == "a:1,a:2,b:1";
  }

  lemma KeyedOnce(nodup: bool, origval: string, newval: string, news: seq<string>, op: SetOp)
    requires ',' in newval && NoBackslash(origval) && NoBackslash(newval) && Items(newval) == news
    ensures Merge(CommaColon, nodup, origval, newval, op) == Join(MergeList(Items(origval), news, op))
  {
    CleanItems(newval);
    MergeEachIs(origval, news, op);
    hide Items;
    hide MergeEach;
    hide MergeList;
    KeyedMerge(CommaColon, nodup, origval, newval, op);
  }

  /** A key given twice, and then another item: merging again moves the key behind it. */
  lemma RepeatedKeyMoves(nodup: bool)
    ensures Merge(CommaColon, nodup, "", "a:1,a:2,b:1", Append) == "a:2,b:1"
    ensures Merge(CommaColon, nodup, "a:2,b:1", "a:1,a:2,b:1", Append) == "b:1,a:2"
  {
    var newval, news := "a:1,a:2,b:1", ["a:1", "a:2", "b:1"];
    assert newval[3] == ',' && NoBackslash(newval) && NoBackslash("") && NoBackslash("a:2,b:1");
    assert CommaFree("") && CommaFree("a:2") && CommaFree("b:1");
    assert "a:2" + "," + "b:1" == "a:2,b:1" && "b:1" + "," + "a:2" == "b:1,a:2";
    hide *;
    TheThree();
    OneItem("");
    TwoItems("a:2", "b:1");
    TwoItems("b:1", "a:2");
    FirstPass();
    AgainPass();
    ThreeItems([""], "a:1", "a:2", "b:1", Append);
    ThreeItems(["a:2", "b:1"], "a:1", "a:2", "b:1", Append);
    KeyedOnce(nodup, "", newval, news, Append);
    KeyedOnce(nodup, "a:2,b:1", newval, news, Append);
  }

  lemma TwoAreSteady(x: string, y: string)
    requires x != y && ':' in x && ':' in y && KeyOf(x) == KeyOf(y)
    ensures Steady([x, y])
  {
    var news := [x, y];
    assert Touches(x, news[1]) && Touches(y, news[0]);
    hide Touches;
    hide LastWith;
    forall i | 0 <= i < 2
      ensures !Still(news, i)
    {
      assert news[1 - i] != news[i];
    }
  }

  /** A key given twice and nothing after it: merging again gives the same. */
  lemma RepeatedKeyMayStay(nodup: bool, op: SetOp)
    requires op != Remove
    ensures Idempotent(CommaColon, nodup, "a:1,a:2", op)
  {
    var newval := "a:1,a:2";
    assert newval[3] == ',' && NoBackslash(newval) && CommaFree("a:1") && CommaFree("a:2");
    assert KeyOf("a:1") == "a:" && KeyOf("a:2") == "a:" && "a:1" + "," + "a:2" == newval;
    assert GoesKeyed(CommaColon, newval);
    hide *;
    TwoItems("a:1", "a:2");
    TwoAreSteady("a:1", "a:2");
    MergingTwiceIff(CommaColon, nodup, newval, op);
  }

  lemma NoKeysNoStart(news: seq<string>, n: nat)
    requires n <= |news| && forall x :: x in news ==> ':' !in x
    ensures TailStart(news, n) == 0
  {
  }

  /** An item given twice is appended once and for all, whatever hides it; given once it may
      not be. */
  lemma RepeatedItemStays(nodup: bool)
    ensures forall origval :: TwiceIsOnce(CommaColon, nodup, origval, "p,p", Append)
    ensures exists origval :: !TwiceIsOnce(CommaColon, nodup, origval, "p,q", Append)
  {
    var twice, one := ["p", "p"], ["p", "q"];
    assert "p" + "," + "p" == "p,p" && "p" + "," + "q" == "p,q" && "p,p"[1] == ',' && "p,q"[1] == ',';
    assert CommaFree("p") && CommaFree("q") && NoBackslash("p,p") && NoBackslash("p,q");
    assert AllConstant(twice) && AllConstant(one);
    NoKeysNoStart(twice, 2);
    NoKeysNoStart(one, 2);
    assert twice[0..] == twice && one[0..] == one;
    assert twice[0] == twice[1] == "p" && Twice(twice, "p");
    assert one[0] == "p" && one[1] == "q" && one[0] != one[1] && !Twice(one, "p") && Keyless("p");
    assert Renewed(twice, Append) && !Renewed(one, Append);
    assert GoesKeyed(CommaColon, "p,p") && GoesKeyed(CommaColon, "p,q");
    hide *;
    TwoItems("p", "p");
    TwoItems("p", "q");
    HiddenTwiceIff(CommaColon, nodup, "p,p", Append);
    HiddenTwiceIff(CommaColon, nodup, "p,q", Append);
  }
}
