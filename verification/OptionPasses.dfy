/** Two passes of one new value over an option's value.

    Within the new value a key may be given several values. `Moving` is the last change of such
    a key, and `Still` the first mention of an item that is not of such a key. A pass puts what
    moves at the end, in the order of the last changes, and leaves the rest where it was put
    first: `Shape` shows the two parts after a pass of a value in which no `Still` follows a
    `Moving`, and `RestStays` that a second pass leaves the first part alone. For other values
    `FirstPair` and `SecondPair` follow one item of each kind through both passes from the empty
    value, which leave them in opposite orders. `OptionIdempotence` draws the conclusion. */
module OptionPasses {
  import opened Wrappers
  import opened CommaItems
  import opened OptionMerge
  import opened OptionSearch
  import opened OptionLaws
  import opened OptionTheorems

  // ----- changes of a key's value within the new value

  /** The item gives its key another value than the new value gave it last. */
  predicate Changes(news: seq<string>, i: nat)
    requires i < |news|
  {
    ':' in news[i] && LastWith(news[..i], KeyOf(news[i])).Some? && LastWith(news[..i], KeyOf(news[i])).value != news[i]
  }

  /** The last change of its key. */
  predicate Moving(news: seq<string>, i: nat)
    requires i < |news|
  {
    Changes(news, i) && forall j :: i < j < |news| && Occurs(KeyOf(news[i]), news[j], 0) ==> news[j] == news[i]
  }

  /** The first mention of an item that has no key, or is the only value of its key. */
  predicate Still(news: seq<string>, i: nat)
    requires i < |news|
  {
    news[i] != "" && Constant(news, news[i]) && news[i] !in news[..i]
  }

  predicate Constant(news: seq<string>, x: string) {
    forall j :: 0 <= j < |news| && Touches(x, news[j]) ==> news[j] == x
  }

  /** No item of constant value is first mentioned after the last value change of a key. */
  predicate Steady(news: seq<string>) {
    forall i, j :: 0 <= i < |news| && 0 <= j < |news| && Moving(news, j) && Still(news, i) ==> i < j
  }

  // ----- facts about the last value of a key

  lemma {:induction false} LastWithIn(news: seq<string>, key: string)
    requires LastWith(news, key).Some?
    ensures LastWith(news, key).value in news && Occurs(key, LastWith(news, key).value, 0)
  {
    var n := |news| - 1;
    if !Occurs(key, news[n], 0) {
      LastWithIn(news[..n], key);
    }
  }

  lemma {:induction false} MentionedLast(news: seq<string>, n: nat, k: nat, key: string)
    requires k < n <= |news| && Occurs(key, news[k], 0)
    ensures LastWith(news[..n], key).Some?
  {
    assert news[..n][k] == news[k];
    LastWithIs(news[..n], k, key);
  }

  /** After its last change, a key has the value of that change. */
  lemma {:induction false} MovedValue(news: seq<string>, i: nat, n: nat)
    requires i < n <= |news| && Moving(news, i)
    ensures LastWith(news[..n], KeyOf(news[i])) == Some(news[i])
    decreases n
  {
    assert news[..n][..n - 1] == news[..n - 1] && news[..n][n - 1] == news[n - 1];
    if n - 1 > i {
      MovedValue(news, i, n - 1);
    }
  }

  lemma MovingOnce(news: seq<string>, i: nat, j: nat)
    requires i < |news| && j < |news| && Moving(news, i) && Moving(news, j) && Occurs(KeyOf(news[i]), news[j], 0)
    ensures i == j
  {
    OneKey(news[i], news[j], news[j]);
    if i < j {
      MovedValue(news, i, j);
    } else if j < i {
      MovedValue(news, j, i);
    }
  }

  /** A key given two values has a last change. */
  lemma {:induction false} LastChange(news: seq<string>, a: string, n: nat, k: nat) returns (i: nat)
    requires k < n <= |news| && ':' in a && Occurs(KeyOf(a), news[k], 0)
    requires LastWith(news[..n], KeyOf(a)).Some? && news[k] != LastWith(news[..n], KeyOf(a)).value
    requires forall j :: n <= j < |news| && Occurs(KeyOf(a), news[j], 0) ==>
             news[j] == LastWith(news[..n], KeyOf(a)).value
    ensures i < |news| && Moving(news, i) && KeyOf(news[i]) == KeyOf(a)
    decreases n
  {
    var key, last := KeyOf(a), news[n - 1];
    assert news[..n][..n - 1] == news[..n - 1] && news[..n][n - 1] == last;
    if Occurs(key, last, 0) {
      KeyedHasColon(a, last);
      OneKey(a, last, last);
      MentionedLast(news, n - 1, k, key);
      if LastWith(news[..n - 1], key).value != last {
        i := n - 1;
      } else {
        i := LastChange(news, a, n - 1, k);
      }
    } else {
      i := LastChange(news, a, n - 1, k);
    }
  }

  /** An item whose key the new value also gives another value has a key that moves. */
  lemma NotConstant(news: seq<string>, k: nat)
    requires k < |news| && !Constant(news, news[k])
    ensures ':' in news[k] && exists i :: 0 <= i < |news| && Moving(news, i) && KeyOf(news[i]) == KeyOf(news[k])
  {
    var x := news[k];
    var j :| 0 <= j < |news| && Touches(x, news[j]) && news[j] != x;
    var key := KeyOf(x);
    assert news[..|news|] == news;
    MentionedLast(news, |news|, k, key);
    var i := LastChange(news, x, |news|, if LastWith(news, key).value == x then j else k);
  }

  lemma MovingVaries(news: seq<string>, i: nat)
    requires i < |news| && Moving(news, i)
    ensures exists j :: 0 <= j < i && Occurs(KeyOf(news[i]), news[j], 0) && news[j] != news[i]
  {
    LastWithIn(news[..i], KeyOf(news[i]));
    var j :| 0 <= j < i && news[..i][j] == LastWith(news[..i], KeyOf(news[i])).value;
    assert news[j] == news[..i][j];
  }

  // ----- one pass, item by item

  function Pass(s: string, news: seq<string>, n: nat, op: SetOp): (items: seq<string>)
    requires n <= |news|
    ensures items != [] && AllCommaFree(items)
  {
    Items(MergeEach(s, news[..n], op))
  }

  /** Every item names a key. */
  predicate AllKeyed(news: seq<string>) {
    forall k :: 0 <= k < |news| && news[k] != "" ==> ':' in news[k]
  }

  /** What a pass works on: texts without backslashes, or any option value and new items that
      all name keys, in whose search backslashes do not count. */
  predicate Fine(s: string, news: seq<string>, op: SetOp) {
    op != Remove && AllCommaFree(news) && ((NoBackslash(s) && Clean(news)) || AllKeyed(news))
  }

  lemma PassIs(s: string, news: seq<string>, n: nat, op: SetOp)
    requires AllCommaFree(news) && n <= |news|
    ensures Pass(s, news, n, op) == MergeList(Items(s), news[..n], op)
  {
    assert AllCommaFree(news[..n]);
    MergeEachIs(s, news[..n], op);
  }

  lemma PassStep(s: string, news: seq<string>, n: nat, op: SetOp)
    requires Fine(s, news, op) && n < |news|
    ensures Pass(s, news, n + 1, op)
         == if news[n] == "" then Pass(s, news, n, op) else MergeListItem(Pass(s, news, n, op), news[n], op)
  {
    assert news[..n + 1][..n] == news[..n];
    PassIs(s, news, n, op);
    PassIs(s, news, n + 1, op);
    hide MergeListItem;
    hide Pass;
    hide Items;
  }

  lemma PassStarts(s: string, news: seq<string>, op: SetOp)
    ensures Pass(s, news, 0, op) == Items(s)
  {
    assert news[..0] == [];
  }

  lemma PassKey(s: string, news: seq<string>, n: nat, op: SetOp, a: string)
    requires Fine(s, news, op) && n <= |news| && ':' in a && LastWith(news[..n], KeyOf(a)).Some?
    ensures Filter(Pass(s, news, n, op), HasKey(KeyOf(a))) == [LastWith(news[..n], KeyOf(a)).value]
  {
    PassIs(s, news, n, op);
    MergedKey(Items(s), news[..n], op, a);
  }

  /** A plain item is there only if backslashes are not, and then it is seen. */
  lemma PlainInPass(s: string, news: seq<string>, n: nat, op: SetOp, x: string)
    requires Fine(s, news, op) && n <= |news| && ':' !in x && x != "" && x in news
    requires x in Items(s) || x in news[..n]
    ensures x in Pass(s, news, n, op) && Settled(Pass(s, news, n, op), x)
  {
    var k :| 0 <= k < |news| && news[k] == x;
    assert Clean(news[..n]);
    CleanItems(s);
    PassIs(s, news, n, op);
    PlainStays(Items(s), news[..n], op, x);
    CleanMerge(Items(s), news[..n], op);
    CleanSees(Pass(s, news, n, op), x);
    hide Items;
    hide MergeList;
  }

  /** An item without another value, mentioned before, is merged already. */
  lemma ConstantIsSettled(s: string, news: seq<string>, n: nat, op: SetOp, x: string)
    requires Fine(s, news, op) && n <= |news| && x in news[..n] && x != "" && Constant(news, x)
    ensures Settled(Pass(s, news, n, op), x)
  {
    if ':' in x {
      var k :| 0 <= k < n && news[..n][k] == x;
      assert news[k] == x;
      MentionedLast(news, n, k, KeyOf(x));
      LastWithIn(news[..n], KeyOf(x));
      LastIsConstant(news, n, x);
      PassKey(s, news, n, op, x);
    } else {
      var k :| 0 <= k < n && news[..n][k] == x;
      assert news[k] == x;
      PlainInPass(s, news, n, op, x);
    }
  }

  lemma LastIsConstant(news: seq<string>, n: nat, x: string)
    requires n <= |news| && ':' in x && Constant(news, x) && LastWith(news[..n], KeyOf(x)).Some?
    ensures LastWith(news[..n], KeyOf(x)) == Some(x)
  {
    LastWithIn(news[..n], KeyOf(x));
    var last := LastWith(news[..n], KeyOf(x)).value;
    var j :| 0 <= j < n && news[..n][j] == last;
    assert news[j] == last && Touches(x, news[j]);
  }

  // ----- where the items that move end up

  /** The last values of the keys that move, the one changed last at the end. */
  function Moved(news: seq<string>, n: nat, op: SetOp): seq<string>
    requires n <= |news|
  {
    if n == 0 then []
    else if Moving(news, n - 1) then Put(op, Moved(news, n - 1, op), [news[n - 1]])
    else Moved(news, n - 1, op)
  }

  predicate MovesBy(news: seq<string>, n: nat, y: string)
    requires n <= |news|
  {
    exists i :: 0 <= i < n && Moving(news, i) && Occurs(KeyOf(news[i]), y, 0)
  }

  function MovedBy(news: seq<string>, n: nat): string -> bool
    requires n <= |news|
  {
    (y: string) => MovesBy(news, n, y)
  }

  lemma {:induction false} NoneMoved(news: seq<string>, n: nat, op: SetOp)
    requires n <= |news| && forall i :: 0 <= i < n ==> !Moving(news, i)
    ensures Moved(news, n, op) == []
  {
    if n > 0 {
      NoneMoved(news, n - 1, op);
    }
  }

  lemma FilterPut(op: SetOp, a: seq<string>, b: seq<string>, p: string -> bool)
    ensures Filter(Put(op, a, b), p) == Put(op, Filter(a, p), Filter(b, p))
  {
    FilterConcat(a, b, p);
    FilterConcat(b, a, p);
  }

  lemma {:induction false} FilterAgree(items: seq<string>, p: string -> bool, q: string -> bool)
    requires forall x :: x in items ==> (p(x) <==> q(x))
    ensures Filter(items, p) == Filter(items, q)
  {
    if items != [] {
      assert items[0] in items;
      FilterAgree(items[1..], p, q);
    }
  }

  lemma FilterOne(x: string, p: string -> bool)
    ensures Filter([x], p) == if p(x) then [x] else []
  {
  }

  /** A list in two parts: what moved, mentioned so far, and the rest. */
  predicate Parted(news: seq<string>, n: nat, op: SetOp, x: seq<string>, y: seq<string>)
    requires n <= |news|
  {
    && (forall w :: w in y ==> w != "" && w in news[..n] && MovesBy(news, |news|, w))
    && (forall w :: w in x ==> !MovesBy(news, n, w))
    && Filter(y, MovedBy(news, n)) == Moved(news, n, op)
    && (x == [""] ==> |y| != 1)
  }

  lemma UnsettledMerge(items: seq<string>, v: string, op: SetOp)
    requires items != [] && ':' in v && op != Remove
    ensures var key := KeyOf(v); var f := FirstKeyed(items, key, 0);
            MergeListItem(items, v, op)
            == if f < |items| && items[f] == v then KeepFirst(items, key)
               else InsertList(Normal(Filter(items, LacksKey(key))), v, op)
  {
    var key := KeyOf(v);
    FirstKeyedIs(items, key, 0);
    if FirstKeyed(items, key, 0) == |items| {
      FilterAll(items, LacksKey(key));
    }
    hide InsertList;
    hide KeepFirst;
  }

  /** What inserting at one end makes of the parts; a sole empty item gives way. */
  lemma InsertedParts(op: SetOp, x: seq<string>, y: seq<string>, v: string) returns (x2: seq<string>, y2: seq<string>)
    requires op != Remove && "" !in y && v != ""
    ensures InsertList(Normal(Put(op, x, y)), v, op) == Put(op, x2, y2)
    ensures y2 == Put(op, y, [v]) && (x2 == x || x2 == []) && (x2 == [""] ==> |y2| != 1)
  {
    y2 := Put(op, y, [v]);
    if Normal(Put(op, x, y)) == [""] {
      NoPart(op, x, y);
      x2 := [];
    } else {
      x2 := x;
      assert Put(op, x, []) == x;
      PutTwice(op, x, y, [v]);
    }
  }

  lemma NoPart(op: SetOp, x: seq<string>, y: seq<string>)
    requires "" !in y && Normal(Put(op, x, y)) == [""]
    ensures y == []
  {
    assert |y| > 0 ==> y[0] in y;
    assert forall w :: w in y ==> w in Normal(Put(op, x, y));
  }

  lemma PutTwice(op: SetOp, a: seq<string>, b: seq<string>, c: seq<string>)
    ensures Put(op, Put(op, a, b), c) == Put(op, a, Put(op, b, c))
  {
    assert a + b + c == a + (b + c);
    assert c + (b + a) == c + b + a;
  }

  lemma MoversLack(news: seq<string>, n: nat)
    requires n < |news| && ':' in news[n] && !MovesBy(news, n, news[n])
    ensures forall w :: MovedBy(news, n)(w) ==> LacksKey(KeyOf(news[n]))(w)
  {
    forall w | MovesBy(news, n, w)
      ensures !Occurs(KeyOf(news[n]), w, 0)
    {
      if Occurs(KeyOf(news[n]), w, 0) {
        var i :| 0 <= i < n && Moving(news, i) && Occurs(KeyOf(news[i]), w, 0);
        OneKey(news[i], news[n], w);
      }
    }
  }

  lemma NextMoves(news: seq<string>, n: nat, w: string)
    requires n < |news| && ':' in news[n]
    ensures MovesBy(news, n + 1, w) <==> MovesBy(news, n, w) || (Moving(news, n) && Occurs(KeyOf(news[n]), w, 0))
  {
    hide Occurs;
    hide Moving;
  }

  lemma {:induction false} FilterNext(news: seq<string>, n: nat, y: seq<string>)
    requires n < |news| && ':' in news[n] && forall w :: w in y ==> !Occurs(KeyOf(news[n]), w, 0)
    ensures Filter(y, MovedBy(news, n + 1)) == Filter(y, MovedBy(news, n))
  {
    forall w | w in y
      ensures MovesBy(news, n + 1, w) <==> MovesBy(news, n, w)
    {
      NextMoves(news, n, w);
    }
    hide MovesBy;
    FilterAgree(y, MovedBy(news, n + 1), MovedBy(news, n));
  }

  lemma MovedNext(news: seq<string>, n: nat, op: SetOp)
    requires n < |news|
    ensures Moved(news, n + 1, op) == Put(op, Moved(news, n, op), if Moving(news, n) then [news[n]] else [])
  {
    assert Put(op, Moved(news, n, op), []) == Moved(news, n, op);
  }

  /** Taking a key out of what moved, when no mover so far has it, and putting its new value
      at the end. */
  lemma MovedGrows(news: seq<string>, n: nat, op: SetOp, y: seq<string>)
    requires n < |news| && ':' in news[n] && Filter(y, MovedBy(news, n)) == Moved(news, n, op)
    requires !MovesBy(news, n, news[n])
    ensures var y2 := Put(op, Filter(y, LacksKey(KeyOf(news[n]))), [news[n]]);
            Filter(y2, MovedBy(news, n + 1)) == Moved(news, n + 1, op)
  {
    var v, lacks := news[n], LacksKey(KeyOf(news[n]));
    var y1 := Filter(y, lacks);
    FilterIn(y, lacks);
    assert forall w :: w in y1 ==> !Occurs(KeyOf(v), w, 0);
    assert MovedBy(news, n + 1)(v) == MovesBy(news, n + 1, v);
    hide *;
    FilterPut(op, y1, [v], MovedBy(news, n + 1));
    FilterNext(news, n, y1);
    MoversLack(news, n);
    FilterTwice(y, MovedBy(news, n), lacks);
    FilterOne(v, MovedBy(news, n + 1));
    NextMoves(news, n, v);
    MovedNext(news, n, op);
  }

  lemma NewRest(news: seq<string>, n: nat, x: seq<string>)
    requires n < |news| && ':' in news[n] && forall w :: w in x ==> !MovesBy(news, n, w)
    ensures forall w :: w in Filter(x, LacksKey(KeyOf(news[n]))) ==> !MovesBy(news, n + 1, w)
  {
    FilterIn(x, LacksKey(KeyOf(news[n])));
    forall w | w in Filter(x, LacksKey(KeyOf(news[n])))
      ensures !MovesBy(news, n + 1, w)
    {
      NextMoves(news, n, w);
    }
  }

  lemma NewMoved(news: seq<string>, n: nat, op: SetOp, y: seq<string>)
    requires n < |news| && news[n] != "" && MovesBy(news, |news|, news[n])
    requires forall w :: w in y ==> w != "" && w in news[..n] && MovesBy(news, |news|, w)
    ensures forall w :: w in Put(op, y, [news[n]]) ==> w != "" && w in news[..n + 1] && MovesBy(news, |news|, w)
  {
    hide MovesBy;
    assert news[..n + 1] == news[..n] + [news[n]];
  }

  /** A step that gives a key its next value. */
  lemma ChangedParts(news: seq<string>, n: nat, op: SetOp, x: seq<string>, y: seq<string>)
      returns (x2: seq<string>, y2: seq<string>)
    requires n < |news| && ':' in news[n] && op != Remove && Parted(news, n, op, x, y)
    requires MovesBy(news, |news|, news[n]) && !MovesBy(news, n, news[n])
    ensures InsertList(Normal(Filter(Put(op, x, y), LacksKey(KeyOf(news[n])))), news[n], op) == Put(op, x2, y2)
    ensures Parted(news, n + 1, op, x2, y2)
  {
    hide MovesBy;
    hide Moved;
    hide Filter;
    hide InsertList;
    hide Normal;
    hide Put;
    var v, lacks := news[n], LacksKey(KeyOf(news[n]));
    var x1, y1 := Filter(x, lacks), Filter(y, lacks);
    FilterPut(op, x, y, lacks);
    FilterIn(y, lacks);
    MovedGrows(news, n, op, y);
    NewRest(news, n, x);
    NewMoved(news, n, op, y1);
    x2, y2 := InsertedParts(op, x1, y1, v);
  }

  lemma SameParts(news: seq<string>, n: nat, op: SetOp, x: seq<string>, y: seq<string>)
    requires n < |news| && Parted(news, n, op, x, y) && !Moving(news, n)
    ensures Parted(news, n + 1, op, x, y)
  {
    hide Moving;
    assert forall w :: MovesBy(news, n + 1, w) <==> MovesBy(news, n, w);
    FilterAgree(y, MovedBy(news, n + 1), MovedBy(news, n));
    assert news[..n + 1] == news[..n] + [news[n]];
    hide Filter;
  }

  lemma {:induction false} KeepFirstBeside(items: seq<string>, beside: seq<string>, key: string)
    requires forall w :: w in beside ==> !Occurs(key, w, 0)
    ensures KeepFirst(items + beside, key) == KeepFirst(items, key) + beside
  {
    FilterAll(beside, LacksKey(key));
    if items != [] {
      assert (items + beside)[1..] == items[1..] + beside;
      FilterConcat(items[1..], beside, LacksKey(key));
      KeepFirstBeside(items[1..], beside, key);
    } else {
      assert items + beside == beside;
      NoneToKeep(beside, key);
    }
  }

  lemma {:induction false} NoneToKeep(items: seq<string>, key: string)
    requires forall w :: w in items ==> !Occurs(key, w, 0)
    ensures KeepFirst(items, key) == items
  {
    if items != [] {
      assert items[0] in items;
      NoneToKeep(items[1..], key);
    }
  }

  lemma {:induction false} NoneBefore(beside: seq<string>, items: seq<string>, key: string)
    requires forall w :: w in beside ==> !Occurs(key, w, 0)
    ensures KeepFirst(beside + items, key) == beside + KeepFirst(items, key)
  {
    if beside == [] {
      assert beside + items == items;
    } else {
      assert beside[0] in beside;
      assert (beside + items)[1..] == beside[1..] + items;
      NoneBefore(beside[1..], items, key);
      assert [beside[0]] + (beside[1..] + KeepFirst(items, key)) == beside + KeepFirst(items, key);
    }
  }

  lemma KeepsSome(items: seq<string>, key: string, v: string)
    requires v in items && Occurs(key, v, 0) && key != ""
    ensures KeepFirst(items, key) != [""]
  {
    var f := FirstKeyed(items, key, 0);
    var k :| 0 <= k < |items| && items[k] == v;
    FirstKeyedIs(items, key, 0);
    KeepFirstKeepsOne(items, key, f);
    FilterOne("", HasKey(key));
    hide KeepFirst;
    hide Filter;
  }

  /** A step that keeps the first item of a key not mentioned before. */
  lemma KeptParts(news: seq<string>, n: nat, op: SetOp, x: seq<string>, y: seq<string>)
    requires n < |news| && ':' in news[n] && Parted(news, n, op, x, y) && !Moving(news, n) && news[n] in Put(op, x, y)
    requires forall w :: w in y ==> !Occurs(KeyOf(news[n]), w, 0)
    ensures KeepFirst(Put(op, x, y), KeyOf(news[n])) == Put(op, KeepFirst(x, KeyOf(news[n])), y)
    ensures Parted(news, n + 1, op, KeepFirst(x, KeyOf(news[n])), y)
  {
    var key := KeyOf(news[n]);
    SameParts(news, n, op, x, y);
    KeepFirstBeside(x, y, key);
    NoneBefore(y, x, key);
    KeepFirstFrom(x, key);
    KeepsSome(x, key, news[n]);
    hide KeepFirst;
    hide Filter;
    hide Moved;
    hide MovesBy;
  }

  lemma SettledDoesNotMove(s: string, news: seq<string>, n: nat, op: SetOp)
    requires Fine(s, news, op) && n < |news| && Settled(Pass(s, news, n, op), news[n])
    ensures !Moving(news, n)
  {
    if Changes(news, n) {
      PassKey(s, news, n, op, news[n]);
    }
  }

  /** Where an item is not settled, nothing that moved before has its key. */
  lemma UnsettledIsNew(s: string, news: seq<string>, n: nat, op: SetOp)
    requires Fine(s, news, op) && n < |news| && !Settled(Pass(s, news, n, op), news[n])
    ensures !MovesBy(news, n, news[n])
  {
    if MovesBy(news, n, news[n]) {
      var v := news[n];
      var i :| 0 <= i < n && Moving(news, i) && Occurs(KeyOf(news[i]), v, 0);
      assert v == news[i];
      MovedValue(news, i, n);
      PassKey(s, news, n, op, v);
    }
  }

  /** Once something has moved, what is not settled has a key that moves. */
  lemma UnsettledMoves(s: string, news: seq<string>, n: nat, op: SetOp, j: nat)
    requires Fine(s, news, op) && Steady(news) && n < |news| && !Settled(Pass(s, news, n, op), news[n])
    requires news[n] != "" && j <= n && Moving(news, j)
    ensures ':' in news[n] && MovesBy(news, |news|, news[n])
  {
    assert !Still(news, n);
    if Constant(news, news[n]) && news[n] in news[..n] {
      ConstantIsSettled(s, news, n, op, news[n]);
    }
    NotConstant(news, n);
    var i :| 0 <= i < |news| && Moving(news, i) && KeyOf(news[i]) == KeyOf(news[n]);
  }

  /** An item found although not settled has a key not mentioned before. */
  lemma FoundIsNew(s: string, news: seq<string>, n: nat, op: SetOp)
    requires Fine(s, news, op) && n < |news| && ':' in news[n] && !Settled(Pass(s, news, n, op), news[n])
    requires news[n] in Pass(s, news, n, op)
    ensures forall w :: w in news[..n] ==> !Occurs(KeyOf(news[n]), w, 0)
    ensures !Moving(news, n)
  {
    var v, key, m := news[n], KeyOf(news[n]), Pass(s, news, n, op);
    FilterIn(m, HasKey(key));
    assert v in Filter(m, HasKey(key));
    if LastWith(news[..n], key).Some? {
      PassKey(s, news, n, op, v);
    }
    assert LastWith(news[..n], key) == None;
    hide LastWith;
    hide Filter;
    forall w | w in news[..n]
      ensures !Occurs(key, w, 0)
    {
      var k :| 0 <= k < n && news[..n][k] == w;
      assert news[k] == w;
      if Occurs(key, w, 0) {
        MentionedLast(news, n, k, key);
      }
    }
  }

  lemma ShapeStarts(news: seq<string>, op: SetOp, items: seq<string>)
    ensures Put(op, items, []) == items && Parted(news, 0, op, items, [])
  {
  }

  lemma NothingMovesYet(news: seq<string>, n: nat, op: SetOp, items: seq<string>)
    requires n <= |news| && forall i :: 0 <= i < n ==> !Moving(news, i)
    ensures Put(op, items, []) == items && Parted(news, n, op, items, [])
  {
    NoneMoved(news, n, op);
  }

  lemma ShapeStep(s: string, news: seq<string>, n: nat, op: SetOp, x: seq<string>, y: seq<string>)
      returns (x2: seq<string>, y2: seq<string>)
    requires Fine(s, news, op) && Steady(news) && n < |news|
    requires Pass(s, news, n, op) == Put(op, x, y) && Parted(news, n, op, x, y)
    ensures Pass(s, news, n + 1, op) == Put(op, x2, y2) && Parted(news, n + 1, op, x2, y2)
  {
    var v, m := news[n], Pass(s, news, n, op);
    PassStep(s, news, n, op);
    if v == "" {
      SameParts(news, n, op, x, y);
      return x, y;
    }
    hide *;
    if Settled(m, v) {
      SettledStays(m, v, op);
      SettledDoesNotMove(s, news, n, op);
      SameParts(news, n, op, x, y);
      return x, y;
    }
    if forall i :: 0 <= i <= n ==> !Moving(news, i) {
      NothingMovesYet(news, n + 1, op, Pass(s, news, n + 1, op));
      return Pass(s, news, n + 1, op), [];
    }
    var j :| 0 <= j <= n && Moving(news, j);
    UnsettledMoves(s, news, n, op, j);
    UnsettledIsNew(s, news, n, op);
    UnsettledMerge(m, v, op);
    FoundItem(m, KeyOf(v));
    var f := FirstKeyed(m, KeyOf(v), 0);
    if f < |m| && m[f] == v {
      FoundIsNew(s, news, n, op);
      NewToMoved(news, n, op, x, y);
      KeptParts(news, n, op, x, y);
      x2, y2 := KeepFirst(x, KeyOf(v)), y;
    } else {
      x2, y2 := ChangedParts(news, n, op, x, y);
    }
  }

  lemma FoundItem(items: seq<string>, key: string)
    ensures var f := FirstKeyed(items, key, 0); f < |items| ==> items[f] in items
  {
  }

  lemma NewToMoved(news: seq<string>, n: nat, op: SetOp, x: seq<string>, y: seq<string>)
    requires n < |news| && ':' in news[n] && Parted(news, n, op, x, y)
    requires forall w :: w in news[..n] ==> !Occurs(KeyOf(news[n]), w, 0)
    ensures forall w :: w in y ==> !Occurs(KeyOf(news[n]), w, 0)
  {
  }

  /** After a pass of a steady value: what did not move, then what did. */
  lemma {:induction false} Shape(s: string, news: seq<string>, n: nat, op: SetOp)
      returns (x: seq<string>, y: seq<string>)
    requires Fine(s, news, op) && Steady(news) && n <= |news|
    ensures Pass(s, news, n, op) == Put(op, x, y) && Parted(news, n, op, x, y)
  {
    if n == 0 {
      PassStarts(s, news, op);
      ShapeStarts(news, op, Items(s));
      x, y := Items(s), [];
    } else {
      x, y := Shape(s, news, n - 1, op);
      x, y := ShapeStep(s, news, n - 1, op, x, y);
    }
  }

  /** At the end of the pass everything that moved is in the second part. */
  lemma FinalShape(s: string, news: seq<string>, op: SetOp) returns (x: seq<string>)
    requires Fine(s, news, op) && Steady(news)
    ensures Pass(s, news, |news|, op) == Put(op, x, Moved(news, |news|, op))
    ensures (forall w :: w in x ==> !MovesBy(news, |news|, w)) && (x == [""] ==> |Moved(news, |news|, op)| != 1)
    ensures forall w :: w in Moved(news, |news|, op) ==> MovesBy(news, |news|, w)
  {
    var y;
    x, y := Shape(s, news, |news|, op);
    FilterAll(y, MovedBy(news, |news|));
  }

  // ----- a second pass

  function Rest(news: seq<string>): string -> bool {
    (y: string) => !MovesBy(news, |news|, y)
  }

  /** In a second pass every item of the new value is settled, but perhaps for its value. */
  lemma SecondPass(s: string, news: seq<string>, n: nat, op: SetOp, v: string) returns (u: string)
    requires Fine(s, news, op) && n <= |news| && v in news && v != ""
    ensures Settled(Pass(MergeEach(s, news, op), news, n, op), u)
    ensures u in news && Touches(v, u) && Touches(u, v)
  {
    var once := MergeEach(s, news, op);
    OnceIsFine(s, news, op);
    var k :| 0 <= k < |news| && news[k] == v;
    assert news[..|news|] == news;
    if ':' !in v {
      PlainInPass(s, news, |news|, op, v);
      PlainInPass(once, news, n, op, v);
      u := v;
    } else {
      var key := KeyOf(v);
      MentionedLast(news, |news|, k, key);
      if LastWith(news[..n], key).Some? {
        u := LastWith(news[..n], key).value;
        PassKey(once, news, n, op, v);
        LastWithIn(news[..n], key);
        assert u in news;
      } else {
        u := LastWith(news, key).value;
        LastWithIn(news, key);
        PassKey(s, news, |news|, op, v);
        NotMentioned(news, n, key);
        UnmentionedStays(once, news, n, op, v);
      }
      KeyedHasColon(v, u);
      OneKey(v, u, u);
    }
  }

  lemma OnceIsFine(s: string, news: seq<string>, op: SetOp)
    requires Fine(s, news, op)
    ensures Fine(MergeEach(s, news, op), news, op)
    ensures Items(MergeEach(s, news, op)) == Pass(s, news, |news|, op)
  {
    assert news[..|news|] == news;
    PassIs(s, news, |news|, op);
    if NoBackslash(s) && Clean(news) {
      CleanItems(s);
      CleanMerge(Items(s), news, op);
      CleanJoin(MergeList(Items(s), news, op));
    }
    hide MergeList;
  }

  lemma NotMentioned(news: seq<string>, n: nat, key: string)
    requires n <= |news| && LastWith(news[..n], key).None?
    ensures forall k :: 0 <= k < n ==> !Occurs(key, news[k], 0)
  {
    forall k | 0 <= k < n
      ensures !Occurs(key, news[k], 0)
    {
      if Occurs(key, news[k], 0) {
        MentionedLast(news, n, k, key);
      }
    }
  }

  lemma UnmentionedStays(s: string, news: seq<string>, n: nat, op: SetOp, a: string)
    requires Fine(s, news, op) && n <= |news| && ':' in a && forall k :: 0 <= k < n ==> !Occurs(KeyOf(a), news[k], 0)
    ensures Filter(Pass(s, news, n, op), HasKey(KeyOf(a))) == Filter(Items(s), HasKey(KeyOf(a)))
  {
    forall k, w | 0 <= k < n && HasKey(KeyOf(a))(w)
      ensures !Touches(news[..n][k], w)
    {
      OtherKey(news[k], KeyOf(a), a);
    }
    PassIs(s, news, n, op);
    MergeLeaves(Items(s), news[..n], op, HasKey(KeyOf(a)));
  }

  /** Inserting one value of a key for another leaves the rest, unless the rest is a sole
      empty item. */
  lemma ChangeLeavesRest(news: seq<string>, items: seq<string>, v: string, op: SetOp)
    requires ':' in v && op != Remove && MovesBy(news, |news|, v)
    requires Filter(items, LacksKey(KeyOf(v))) != [""]
    ensures Filter(InsertList(Normal(Filter(items, LacksKey(KeyOf(v)))), v, op), Rest(news))
            == Filter(items, Rest(news))
  {
    var lacks := LacksKey(KeyOf(v));
    var left := Filter(items, lacks);
    forall w | Rest(news)(w)
      ensures lacks(w)
    {
      SameMover(news, v, w);
    }
    FilterTwice(items, Rest(news), lacks);
    FilterPut(op, left, [v], Rest(news));
    FilterOne(v, Rest(news));
    assert InsertList(Normal(left), v, op) == Put(op, left, [v]) by {
      assert left == [] ==> Put(op, left, [v]) == [v];
    }
    assert Put(op, Filter(left, Rest(news)), []) == Filter(left, Rest(news));
    hide Filter;
  }

  lemma SameMover(news: seq<string>, v: string, w: string)
    requires ':' in v && MovesBy(news, |news|, v)
    ensures Occurs(KeyOf(v), w, 0) ==> MovesBy(news, |news|, w)
  {
    var i :| 0 <= i < |news| && Moving(news, i) && Occurs(KeyOf(news[i]), v, 0);
    OneKey(news[i], v, v);
  }

  lemma {:induction false} MovedCount(news: seq<string>, n: nat, op: SetOp, i: nat)
    requires i < |news| && n <= |news| && Moving(news, i) && forall j :: 0 <= j < n && Moving(news, j) ==> j == i
    ensures |Moved(news, n, op)| == if i < n then 1 else 0
  {
    if n > 0 {
      MovedCount(news, n - 1, op, i);
    }
  }

  /** In the second pass the rest is never a sole empty item next to one moving item, as the
      first pass would have put that item in its place. */
  lemma NotSoleEmpty(s: string, news: seq<string>, n: nat, op: SetOp, v: string, x: seq<string>)
    requires Fine(s, news, op) && n <= |news| && v in news && ':' in v && MovesBy(news, |news|, v)
    requires x == [""] ==> |Moved(news, |news|, op)| != 1
    requires Filter(Pass(MergeEach(s, news, op), news, n, op), Rest(news)) == x
    ensures Filter(Pass(MergeEach(s, news, op), news, n, op), LacksKey(KeyOf(v))) != [""]
  {
    var m, lacks := Pass(MergeEach(s, news, op), news, n, op), LacksKey(KeyOf(v));
    if Filter(m, lacks) == [""] {
      RestOfOne(news, m, v);
      var i :| 0 <= i < |news| && Moving(news, i) && Occurs(KeyOf(news[i]), v, 0);
      OneKey(news[i], v, v);
      forall j | 0 <= j < |news| && Moving(news, j)
        ensures j == i
      {
        var u := SecondPass(s, news, n, op, news[j]);
        SettledIsThere(m, u);
        OnlyKeyThere(m, v, u);
        OneKey(v, news[j], u);
        MovingOnce(news, i, j);
      }
      MovedCount(news, |news|, op, i);
    }
  }

  lemma SettledIsThere(items: seq<string>, u: string)
    requires Settled(items, u)
    ensures u in items
  {
    if ':' in u {
      FilterIn(items, HasKey(KeyOf(u)));
      assert u in Filter(items, HasKey(KeyOf(u)));
    }
  }

  lemma OnlyKeyThere(items: seq<string>, v: string, u: string)
    requires ':' in v && Filter(items, LacksKey(KeyOf(v))) == [""] && u in items && u != ""
    ensures Occurs(KeyOf(v), u, 0)
  {
    FilterIn(items, LacksKey(KeyOf(v)));
    assert forall w :: w in [""] ==> w == "";
  }

  lemma RestOfOne(news: seq<string>, items: seq<string>, v: string)
    requires ':' in v && MovesBy(news, |news|, v) && Filter(items, LacksKey(KeyOf(v))) == [""]
    ensures Filter(items, Rest(news)) == [""]
  {
    forall w | Rest(news)(w)
      ensures LacksKey(KeyOf(v))(w)
    {
      SameMover(news, v, w);
    }
    FilterTwice(items, Rest(news), LacksKey(KeyOf(v)));
    NothingMovesEmpty(news);
    FilterOne("", Rest(news));
  }

  lemma NothingMovesEmpty(news: seq<string>)
    ensures !MovesBy(news, |news|, "")
  {
  }

  lemma RestStep(s: string, news: seq<string>, n: nat, op: SetOp, x: seq<string>)
    requires Fine(s, news, op) && n < |news| && (x == [""] ==> |Moved(news, |news|, op)| != 1)
    requires Filter(Pass(MergeEach(s, news, op), news, n, op), Rest(news)) == x
    ensures Filter(Pass(MergeEach(s, news, op), news, n + 1, op), Rest(news)) == x
  {
    var once, v := MergeEach(s, news, op), news[n];
    OnceIsFine(s, news, op);
    FineAdds(s, news, op);
    hide *;
    PassStep(once, news, n, op);
    if v != "" {
      var m := Pass(once, news, n, op);
      var u := SecondPass(s, news, n, op, v);
      if u == v {
        SettledStays(m, v, op);
      } else {
        OtherValue(news, u, v);
        UnsettledMerge(m, v, op);
        SettledFirst(m, u, v);
        NotSoleEmpty(s, news, n, op, v, x);
        ChangeLeavesRest(news, m, v, op);
      }
    }
  }

  lemma FineAdds(s: string, news: seq<string>, op: SetOp)
    requires Fine(s, news, op)
    ensures op != Remove
  {
  }

  /** The second pass leaves what does not move as it was. */
  lemma {:induction false} RestStays(s: string, news: seq<string>, n: nat, op: SetOp, x: seq<string>)
    requires Fine(s, news, op) && n <= |news| && (x == [""] ==> |Moved(news, |news|, op)| != 1)
    requires Filter(Pass(s, news, |news|, op), Rest(news)) == x
    ensures Filter(Pass(MergeEach(s, news, op), news, n, op), Rest(news)) == x
  {
    hide *;
    if n == 0 {
      OnceIsFine(s, news, op);
      PassStarts(MergeEach(s, news, op), news, op);
    } else {
      RestStays(s, news, n - 1, op, x);
      RestStep(s, news, n - 1, op, x);
    }
  }

  lemma OtherValue(news: seq<string>, u: string, v: string)
    requires u in news && v in news && u != v && Touches(v, u)
    ensures ':' in v && MovesBy(news, |news|, v)
  {
    var k :| 0 <= k < |news| && news[k] == v;
    var j :| 0 <= j < |news| && news[j] == u;
    NotConstant(news, k);
    var i :| 0 <= i < |news| && Moving(news, i) && KeyOf(news[i]) == KeyOf(news[k]);
  }

  lemma SettledFirst(items: seq<string>, u: string, v: string)
    requires Settled(items, u) && u != v && ':' in v && Touches(v, u) && Touches(u, v)
    ensures var f := FirstKeyed(items, KeyOf(v), 0); !(f < |items| && items[f] == v)
  {
    KeyedHasColon(v, u);
    OneKey(v, u, u);
    SoleKeyed(items, KeyOf(u), u);
  }

  /** A steady value: the second pass changes nothing. */
  lemma SteadyIsIdempotent(s: string, news: seq<string>, op: SetOp)
    requires Fine(s, news, op) && Steady(news)
    ensures MergeEach(MergeEach(s, news, op), news, op) == MergeEach(s, news, op)
  {
    var once := MergeEach(s, news, op);
    OnceIsFine(s, news, op);
    assert news[..|news|] == news;
    var x := FinalShape(s, news, op);
    var y := FinalShape(once, news, op);
    RestIs(news, op, x);
    RestIs(news, op, y);
    RestStays(s, news, |news|, op, x);
    assert Join(Items(once)) == once && Join(Items(MergeEach(once, news, op))) == MergeEach(once, news, op);
  }

  lemma RestIs(news: seq<string>, op: SetOp, x: seq<string>)
    requires forall w :: w in x ==> !MovesBy(news, |news|, w)
    requires forall w :: w in Moved(news, |news|, op) ==> MovesBy(news, |news|, w)
    ensures Filter(Put(op, x, Moved(news, |news|, op)), Rest(news)) == x
  {
    var moved := Moved(news, |news|, op);
    FilterPut(op, x, moved, Rest(news));
    FilterAll(x, Rest(news));
    FilterNone(moved, Rest(news));
    assert Put(op, x, []) == x;
  }

  // ----- a value that is not steady

  function Either(y: string, z: string): string -> bool {
    (w: string) => w == y || w == z
  }

  /** An item of constant value, and the last change of a key, first mentioned before it. */
  predicate Unsteady(news: seq<string>, i: nat, j: nat) {
    j < i < |news| && Still(news, i) && Moving(news, j)
  }

  lemma MovingIsNotStill(news: seq<string>, i: nat)
    requires i < |news| && Moving(news, i)
    ensures !Still(news, i)
  {
    MovingVaries(news, i);
  }

  /** From an empty value, a pass has only what was mentioned. */
  lemma {:induction false} OnlyMentioned(news: seq<string>, n: nat, op: SetOp, w: string)
    requires Fine("", news, op) && n <= |news| && w in Pass("", news, n, op) && w != ""
    ensures w in news[..n]
  {
    if n == 0 {
      PassStarts("", news, op);
      EmptyText("");
    } else {
      hide Items;
      hide MergeEach;
      hide MergeListItem;
      hide Fine;
      var m := Pass("", news, n - 1, op);
      PassStep("", news, n - 1, op);
      assert news[..n] == news[..n - 1] + [news[n - 1]];
      MergedFrom(m, news[n - 1], op);
      if w in m {
        OnlyMentioned(news, n - 1, op, w);
      }
    }
  }

  /** After the last change of its key, and again and again, the moved item is settled. */
  lemma MovedIsSettled(s: string, news: seq<string>, j: nat, n: nat, op: SetOp)
    requires Fine(s, news, op) && j < n <= |news| && Moving(news, j)
    ensures Settled(Pass(s, news, n, op), news[j])
  {
    MovedValue(news, j, n);
    PassKey(s, news, n, op, news[j]);
  }

  lemma MoverTouches(news: seq<string>, j: nat, n: nat)
    requires j < n < |news| && Moving(news, j)
    ensures Touches(news[n], news[j]) ==> news[n] == news[j]
  {
    if Touches(news[n], news[j]) && ':' in news[n] {
      KeyedHasColon(news[n], news[j]);
      OneKey(news[n], news[j], news[j]);
    }
  }

  /** A later item is one of the two, or touches neither. */
  lemma LaterTouches(news: seq<string>, i: nat, j: nat, n: nat)
    requires Unsteady(news, i, j) && j < n < |news|
    ensures news[n] == news[i] || news[n] == news[j]
            || forall w :: Either(news[i], news[j])(w) ==> !Touches(news[n], w)
  {
    MoverTouches(news, j, n);
    ConstantTouches(news, i, n);
    hide Touches;
  }

  lemma ConstantTouches(news: seq<string>, i: nat, n: nat)
    requires i < |news| && n < |news| && Constant(news, news[i])
    ensures Touches(news[n], news[i]) ==> news[n] == news[i]
  {
    if Touches(news[n], news[i]) && ':' in news[n] {
      KeyedHasColon(news[n], news[i]);
      OneKey(news[n], news[i], news[i]);
    }
  }

  lemma SharedKey(z: string, y: string)
    requires ':' in z
    ensures Occurs(KeyOf(z), y, 0) ==> ':' in y && KeyOf(y) == KeyOf(z)
  {
    if Occurs(KeyOf(z), y, 0) {
      KeyedHasColon(z, y);
      OneKey(z, y, y);
    }
  }

  lemma Distinct(news: seq<string>, i: nat, j: nat)
    requires Unsteady(news, i, j)
    ensures ':' in news[j] && news[i] != news[j] && !Occurs(KeyOf(news[j]), news[i], 0)
    ensures news[i] != "" && news[j] != "" && news[i] !in news[..i]
  {
    var y := news[i];
    assert ':' in y ==> forall m :: 0 <= m < |news| && Occurs(KeyOf(y), news[m], 0) ==> news[m] == y by {
      assert forall m :: 0 <= m < |news| && Touches(y, news[m]) ==> news[m] == y;
    }
    MovingVaries(news, j);
    SharedKey(news[j], y);
  }

  lemma NewIsInserted(items: seq<string>, y: string, op: SetOp)
    requires op != Remove && forall w :: w in items ==> !Touches(y, w)
    ensures MergeListItem(items, y, op) == InsertList(items, y, op)
  {
    if ':' in y {
      FirstKeyedIs(items, KeyOf(y), 0);
      FoundItem(items, KeyOf(y));
    } else {
      EqualItem(items, y);
    }
  }

  lemma EqualItem(items: seq<string>, y: string)
    ensures FirstSeen(items, y, 0) < |items| ==> y in items
  {
  }

  /** Where the constant item is first mentioned, nothing of its kind is there. */
  lemma FirstMention(news: seq<string>, i: nat, op: SetOp)
    requires Fine("", news, op) && i < |news| && Still(news, i)
    ensures forall w :: w in Pass("", news, i, op) ==> !Touches(news[i], w)
  {
    forall w | w in Pass("", news, i, op)
      ensures !Touches(news[i], w)
    {
      if w != "" {
        OnlyMentioned(news, i, op, w);
        var k :| 0 <= k < i && news[..i][k] == w;
        assert news[k] == w;
      }
    }
  }

  lemma StepUnless(s: string, news: seq<string>, i: nat, j: nat, n: nat, op: SetOp)
    requires Fine(s, news, op) && Unsteady(news, i, j) && j < n < |news|
    requires news[n] == news[i] ==> Settled(Pass(s, news, n, op), news[i])
    ensures var p := Either(news[i], news[j]);
            Filter(Pass(s, news, n + 1, op), p) == Filter(Pass(s, news, n, op), p)
  {
    var v, m, p := news[n], Pass(s, news, n, op), Either(news[i], news[j]);
    Distinct(news, i, j);
    assert !p("");
    LaterTouches(news, i, j, n);
    MovedIsSettled(s, news, j, n, op);
    FineAdds(s, news, op);
    PassStep(s, news, n, op);
    hide *;
    if v != "" {
      if v == news[i] || v == news[j] {
        SettledStays(m, v, op);
      } else {
        StepLeaves(m, v, op, p);
      }
    }
  }

  lemma MoverAlone(items: seq<string>, y: string, z: string)
    requires ':' in z && Filter(items, HasKey(KeyOf(z))) == [z] && y !in items
    ensures Filter(items, Either(y, z)) == [z]
  {
    FilterAgree(items, Either(y, z), Is(z));
    FilterTwice(items, Is(z), HasKey(KeyOf(z)));
    FilterOne(z, Is(z));
  }

  lemma FirstChange(news: seq<string>, i: nat, j: nat, op: SetOp)
    requires Fine("", news, op) && Unsteady(news, i, j)
    ensures Filter(Pass("", news, j + 1, op), Either(news[i], news[j])) == [news[j]]
  {
    var y, z, n := news[i], news[j], j + 1;
    Distinct(news, i, j);
    MovedValue(news, j, n);
    assert news[..n] <= news[..i];
    hide *;
    PassKey("", news, n, op, z);
    if y in Pass("", news, n, op) {
      OnlyMentioned(news, n, op, y);
    }
    MoverAlone(Pass("", news, n, op), y, z);
  }

  lemma FirstInsertion(news: seq<string>, i: nat, j: nat, op: SetOp)
    requires Fine("", news, op) && Unsteady(news, i, j)
    requires Filter(Pass("", news, i, op), Either(news[i], news[j])) == [news[j]]
    ensures Filter(Pass("", news, i + 1, op), Either(news[i], news[j])) == Put(op, [news[j]], [news[i]])
  {
    var y, z, m := news[i], news[j], Pass("", news, i, op);
    Distinct(news, i, j);
    FirstMention(news, i, op);
    FineAdds("", news, op);
    EitherIs(y, z);
    hide *;
    PassStep("", news, i, op);
    NewIsInserted(m, y, op);
    FilterInsert(m, y, op, Either(y, z));
    PutOne(op, [z], y);
  }

  lemma EitherIs(y: string, z: string)
    requires y != "" && z != ""
    ensures Either(y, z)(y) && Either(y, z)(z) && !Either(y, z)("")
  {
  }

  lemma PutOne(op: SetOp, a: seq<string>, x: string)
    ensures Put(op, a, [x]) == if op == Prepend then [x] + a else a + [x]
  {
  }

  lemma AfterTheFirst(news: seq<string>, i: nat, j: nat, n: nat, op: SetOp)
    requires Fine("", news, op) && Unsteady(news, i, j) && j < n < |news| && n != i
    ensures var p := Either(news[i], news[j]); Filter(Pass("", news, n + 1, op), p) == Filter(Pass("", news, n, op), p)
  {
    hide *;
    UnsteadyIs(news, i, j);
    if news[n] == news[i] {
      Distinct(news, i, j);
      LaterMention(news, i, n);
      StillIs(news, i);
      ConstantIsSettled("", news, n, op, news[i]);
    }
    StepUnless("", news, i, j, n, op);
  }

  lemma UnsteadyIs(news: seq<string>, i: nat, j: nat)
    requires Unsteady(news, i, j)
    ensures j < i < |news| && Still(news, i) && Moving(news, j)
  {
  }

  /** The first pass from an empty value puts the mover before the constant item. */
  lemma {:induction false} FirstPair(news: seq<string>, i: nat, j: nat, n: nat, op: SetOp)
    requires Fine("", news, op) && Unsteady(news, i, j) && j < n <= |news|
    ensures Filter(Pass("", news, n, op), Either(news[i], news[j]))
         == if n <= i then [news[j]] else Put(op, [news[j]], [news[i]])
    decreases n
  {
    hide *;
    UnsteadyIs(news, i, j);
    if n == j + 1 {
      FirstChange(news, i, j, op);
    } else {
      FirstPair(news, i, j, n - 1, op);
      if n - 1 == i {
        FirstInsertion(news, i, j, op);
      } else {
        AfterTheFirst(news, i, j, n - 1, op);
      }
    }
  }

  lemma StillIs(news: seq<string>, i: nat)
    requires i < |news| && Still(news, i)
    ensures news[i] != "" && Constant(news, news[i])
  {
  }

  lemma LaterMention(news: seq<string>, i: nat, n: nat)
    requires i < |news| && n < |news| && n != i && news[n] == news[i] && news[i] !in news[..i]
    ensures news[i] in news[..n]
  {
    forall m | 0 <= m < i
      ensures news[m] != news[i]
    {
      assert news[..i][m] == news[m];
    }
    assert news[..n][i] == news[i];
  }

  /** The constant item is settled throughout the second pass, and stays single. */
  lemma ConstantAgain(news: seq<string>, i: nat, n: nat, op: SetOp)
    requires Fine("", news, op) && i < |news| && Still(news, i) && n <= |news|
    ensures Settled(Pass(MergeEach("", news, op), news, n, op), news[i])
  {
    var u := SecondPass("", news, n, op, news[i]);
    var k :| 0 <= k < |news| && news[k] == u;
  }

  lemma SingleStep(news: seq<string>, i: nat, n: nat, op: SetOp)
    requires Fine("", news, op) && i < |news| && Still(news, i) && n < |news|
    ensures var once, p := MergeEach("", news, op), Is(news[i]);
            Filter(Pass(once, news, n + 1, op), p) == Filter(Pass(once, news, n, op), p)
  {
    hide *;
    var once, y, v := MergeEach("", news, op), news[i], news[n];
    var m := Pass(once, news, n, op);
    OnceIsFine("", news, op);
    FineAdds("", news, op);
    StillIs(news, i);
    PassStep(once, news, n, op);
    ConstantTouches(news, i, n);
    ConstantAgain(news, i, n, op);
    if v == y {
      SettledStays(m, v, op);
    } else if v != "" {
      OnlyItself(v, y);
      StepLeaves(m, v, op, Is(y));
    }
  }

  lemma {:induction false} StaysSingle(news: seq<string>, i: nat, n: nat, op: SetOp)
    requires Fine("", news, op) && i < |news| && Still(news, i) && n <= |news|
    requires Filter(Pass("", news, |news|, op), Is(news[i])) == [news[i]]
    ensures Filter(Pass(MergeEach("", news, op), news, n, op), Is(news[i])) == [news[i]]
  {
    hide *;
    if n == 0 {
      OnceIsFine("", news, op);
      PassStarts(MergeEach("", news, op), news, op);
    } else {
      StaysSingle(news, i, n - 1, op);
      SingleStep(news, i, n - 1, op);
    }
  }

  lemma OnlyItself(v: string, y: string)
    requires y != "" && !Touches(v, y)
    ensures !Is(y)("") && forall w :: Is(y)(w) ==> !Touches(v, w)
  {
  }

  /** Changing the mover puts it after what is there of the two. */
  lemma ChangePutsLast(items: seq<string>, u: string, y: string, z: string, op: SetOp)
    requires items != [] && op != Remove && ':' in z && y != "" && !Occurs(KeyOf(z), y, 0)
    requires Filter(items, HasKey(KeyOf(z))) == [u] && u != z && Filter(items, Is(y)) == [y]
    ensures Filter(MergeListItem(items, z, op), Either(y, z)) == Put(op, [y], [z])
  {
    var key, p := KeyOf(z), Either(y, z);
    var left := Filter(items, LacksKey(key));
    UnsettledMerge(items, z, op);
    SoleKeyed(items, key, u);
    FilterInsert(Normal(left), z, op, p);
    FilterNormal(left, p);
    FilterIn(items, LacksKey(key));
    FilterAgree(left, p, Is(y));
    FilterTwice(items, Is(y), LacksKey(key));
    hide Filter;
    hide InsertList;
    hide MergeListItem;
    hide FirstKeyed;
  }

  lemma SecondChange(news: seq<string>, i: nat, j: nat, op: SetOp)
    requires Fine("", news, op) && Unsteady(news, i, j)
    ensures Filter(Pass(MergeEach("", news, op), news, j + 1, op), Either(news[i], news[j]))
         == Put(op, [news[i]], [news[j]])
  {
    var once, y, z := MergeEach("", news, op), news[i], news[j];
    Distinct(news, i, j);
    OnceIsFine("", news, op);
    FineAdds("", news, op);
    assert Still(news, i) && Changes(news, j);
    var u := LastWith(news[..j], KeyOf(z)).value;
    assert LastWith(news[..j], KeyOf(z)) == Some(u) && u != z;
    hide *;
    SingleAtEnd(news, i, j, op);
    StaysSingle(news, i, j, op);
    PassKey(once, news, j, op, z);
    PassStep(once, news, j, op);
    ChangePutsLast(Pass(once, news, j, op), u, y, z, op);
  }

  lemma AfterTheSecond(news: seq<string>, i: nat, j: nat, n: nat, op: SetOp)
    requires Fine("", news, op) && Unsteady(news, i, j) && j < n < |news|
    ensures var once, p := MergeEach("", news, op), Either(news[i], news[j]);
            Filter(Pass(once, news, n + 1, op), p) == Filter(Pass(once, news, n, op), p)
  {
    hide *;
    UnsteadyIs(news, i, j);
    OnceIsFine("", news, op);
    ConstantAgain(news, i, n, op);
    StepUnless(MergeEach("", news, op), news, i, j, n, op);
  }

  /** The second pass puts it after. */
  lemma {:induction false} SecondPair(news: seq<string>, i: nat, j: nat, n: nat, op: SetOp)
    requires Fine("", news, op) && Unsteady(news, i, j) && j < n <= |news|
    ensures Filter(Pass(MergeEach("", news, op), news, n, op), Either(news[i], news[j]))
            == Put(op, [news[i]], [news[j]])
    decreases n
  {
    hide *;
    UnsteadyIs(news, i, j);
    if n == j + 1 {
      SecondChange(news, i, j, op);
    } else {
      SecondPair(news, i, j, n - 1, op);
      AfterTheSecond(news, i, j, n - 1, op);
    }
  }

  lemma SingleAtEnd(news: seq<string>, i: nat, j: nat, op: SetOp)
    requires Fine("", news, op) && Unsteady(news, i, j)
    ensures Filter(Pass("", news, |news|, op), Is(news[i])) == [news[i]]
  {
    var y, z, items := news[i], news[j], Pass("", news, |news|, op);
    FirstPair(news, i, j, |news|, op);
    Distinct(news, i, j);
    FilterTwice(items, Is(y), Either(y, z));
    FilterPut(op, [z], [y], Is(y));
    FilterOne(z, Is(y));
    FilterOne(y, Is(y));
    assert Put(op, [], [y]) == [y];
  }

  lemma UnsteadyMoves(news: seq<string>, i: nat, j: nat, op: SetOp)
    requires Fine("", news, op) && Unsteady(news, i, j)
    ensures MergeEach(MergeEach("", news, op), news, op) != MergeEach("", news, op)
  {
    var once := MergeEach("", news, op);
    assert news[..|news|] == news;
    Distinct(news, i, j);
    FirstPair(news, i, j, |news|, op);
    SecondPair(news, i, j, |news|, op);
    assert Put(op, [news[j]], [news[i]])[0] != Put(op, [news[i]], [news[j]])[0];
  }
}
