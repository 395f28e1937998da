/** Merging again when backslashes in the option's value hide items from the search.

    The new value is without backslashes here and gives each key one value. What can undo a
    merge is then an item without a key that ends up hidden: after the last key is mentioned
    for the first time, a pass only adds such items at one end, so what counts is which of them
    are mentioned in that tail, and when. `RenewedIsSettled` shows that a renewed value leaves
    all its items settled, so that a second pass changes nothing; `OptionStuck` deals with the
    other values. */
module OptionHidden {
  import opened CommaItems
  import opened OptionMerge
  import opened OptionSearch
  import opened OptionLaws
  import opened OptionTheorems
  import opened OptionPasses

  // ----- which values are renewed

  predicate AllConstant(news: seq<string>) {
    forall i :: 0 <= i < |news| ==> Constant(news, news[i])
  }

  /** Where the tail begins: after the last of the first n items that mentions a key for the
      first time. */
  function TailStart(news: seq<string>, n: nat): (b: nat)
    requires n <= |news|
    ensures b <= n
  {
    if n == 0 then 0
    else if ':' in news[n - 1] && news[n - 1] !in news[..n - 1] then n
    else TailStart(news, n - 1)
  }

  predicate Keyless(x: string) {
    x != "" && ':' !in x
  }

  predicate Twice(tail: seq<string>, p: string) {
    exists i, j :: 0 <= i < j < |tail| && tail[i] == p && tail[j] == p
  }

  /** The tail mentions the item, and does so again after the first mention of any other item
      without a key. */
  predicate AfterOthers(tail: seq<string>, p: string) {
    && p in tail
    && forall i :: 0 <= i < |tail| && Keyless(tail[i]) && tail[i] != p && tail[i] !in tail[..i] ==> p in tail[i + 1..]
  }

  predicate RenewedIn(tail: seq<string>, op: SetOp, p: string) {
    if op == Prepend then AfterOthers(tail, p) else Twice(tail, p)
  }

  /** The tail renews every item without a key. */
  predicate Renewed(news: seq<string>, op: SetOp) {
    forall p :: p in news && Keyless(p) ==> RenewedIn(news[TailStart(news, |news|)..], op, p)
  }

  // ----- a tail adds at one end

  lemma {:induction false} MergeConcat(items: seq<string>, a: seq<string>, b: seq<string>, op: SetOp)
    ensures MergeList(items, a + b, op) == MergeList(MergeList(items, a, op), b, op)
  {
    if b == [] {
      assert a + b == a;
    } else {
      var n := |b| - 1;
      assert (a + b)[..|a + b| - 1] == a + b[..n];
      MergeConcat(items, a, b[..n], op);
    }
  }

  /** Every key that the tail mentions is settled. */
  predicate KeysSettled(items: seq<string>, tail: seq<string>) {
    forall x :: x in tail && ':' in x ==> Settled(items, x)
  }

  lemma SettledIffSees(items: seq<string>, x: string)
    requires ':' !in x
    ensures Settled(items, x) <==> Sees(items, x)
  {
    FirstSeenIs(items, x, 0);
  }

  lemma PlainKeepsKeys(items: seq<string>, x: string, op: SetOp, tail: seq<string>)
    requires Keyless(x) && op != Remove && KeysSettled(items, tail)
    ensures KeysSettled(MergeListItem(items, x, op), tail)
  {
    forall y | y in tail && ':' in y
      ensures Settled(MergeListItem(items, x, op), y)
    {
      assert Settled(items, y);
      forall w | HasKey(KeyOf(y))(w)
        ensures !Touches(x, w)
      {
        KeyedHasColon(y, w);
      }
      StepLeaves(items, x, op, HasKey(KeyOf(y)));
    }
  }

  /** One step of the tail. */
  lemma TailStep(items: seq<string>, tail: seq<string>, n: nat, op: SetOp)
    requires n < |tail| && tail[n] != "" && op != Remove && KeysSettled(items, tail)
    ensures var x, next := tail[n], MergeListItem(items, tail[n], op);
            && KeysSettled(next, tail)
            && (Settled(items, x) ==> next == items)
            && (!Settled(items, x) ==> Keyless(x) && !Sees(items, x) && next == InsertList(items, x, op))
  {
    var x := tail[n];
    assert x in tail;
    if Settled(items, x) {
      SettledStays(items, x, op);
    } else {
      assert Keyless(x);
      SettledIffSees(items, x);
      PlainKeepsKeys(items, x, op, tail);
    }
  }

  // ----- appending

  lemma AppendKeeps(items: seq<string>, x: string, p: string)
    requires Sees(items, p) && p != ""
    ensures Sees(InsertList(items, x, Append), p)
  {
    var k :| 0 <= k < |items| && items[k] == p && Seen(items, k);
    var next := InsertList(items, x, Append);
    assert next == items + [x] && next[k] == p && Seen(next, k);
  }

  predicate EndsClean(items: seq<string>) {
    items != [] && NoBackslash(items[|items| - 1])
  }

  lemma AppendedEndsClean(items: seq<string>, x: string)
    requires NoBackslash(x)
    ensures EndsClean(InsertList(items, x, Append))
  {
  }

  lemma AppendedIsSeen(items: seq<string>, x: string)
    requires EndsClean(items)
    ensures Sees(InsertList(items, x, Append), x)
  {
    var next := InsertList(items, x, Append);
    var k := |next| - 1;
    if k > 0 {
      NoRun(next[k - 1], k == 1);
    }
    assert next[k] == x && Seen(next, k);
  }

  /** Mentioned once in the tail, an item is seen or what comes next can be; mentioned twice,
      it is seen. */
  lemma {:induction false} AppendTail(items: seq<string>, tail: seq<string>, n: nat, p: string)
    requires n <= |tail| && Clean(tail) && KeysSettled(items, tail) && Keyless(p)
    ensures var after := MergeList(items, tail[..n], Append);
            && KeysSettled(after, tail)
            && (p in tail[..n] ==> Sees(after, p) || EndsClean(after))
            && (Twice(tail[..n], p) ==> Sees(after, p))
  {
    if n > 0 {
      AppendTail(items, tail, n - 1, p);
      AppendTailStep(items, tail, n - 1, p);
    }
  }

  lemma TwiceEarlier(tail: seq<string>, n: nat, p: string)
    requires n < |tail| && Twice(tail[..n + 1], p)
    ensures Twice(tail[..n], p) || (tail[n] == p && p in tail[..n])
  {
    var i, j :| 0 <= i < j < n + 1 && tail[..n + 1][i] == p && tail[..n + 1][j] == p;
    assert tail[..n][i] == p;
    if j < n {
      assert tail[..n][j] == p;
    }
  }

  lemma AppendTailStep(items: seq<string>, tail: seq<string>, n: nat, p: string)
    requires n < |tail| && Clean(tail) && Keyless(p)
    requires var before := MergeList(items, tail[..n], Append);
             && KeysSettled(before, tail)
             && (p in tail[..n] ==> Sees(before, p) || EndsClean(before))
             && (Twice(tail[..n], p) ==> Sees(before, p))
    ensures var after := MergeList(items, tail[..n + 1], Append);
            && KeysSettled(after, tail)
            && (p in tail[..n + 1] ==> Sees(after, p) || EndsClean(after))
            && (Twice(tail[..n + 1], p) ==> Sees(after, p))
  {
    var before, x := MergeList(items, tail[..n], Append), tail[n];
    assert tail[..n + 1][..n] == tail[..n] && tail[..n + 1] == tail[..n] + [x];
    if Twice(tail[..n + 1], p) {
      TwiceEarlier(tail, n, p);
    }
    assert NoBackslash(x);
    if x != "" {
      TailStep(before, tail, n, Append);
      if !Settled(before, x) {
        AppendedEndsClean(before, x);
        if EndsClean(before) {
          AppendedIsSeen(before, x);
        }
        if Sees(before, p) {
          AppendKeeps(before, x, p);
        }
      } else if x == p {
        SettledIffSees(before, x);
      }
    }
    hide Sees;
    hide Settled;
    hide EndsClean;
    hide MergeListItem;
  }

  // ----- prepending

  predicate StartsClean(items: seq<string>) {
    items != [] && NoBackslash(items[0])
  }

  lemma PrependKeeps(items: seq<string>, x: string, p: string)
    requires StartsClean(items) && NoBackslash(x) && Sees(items, p) && p != ""
    ensures Sees(InsertList(items, x, Prepend), p)
  {
    var k :| 0 <= k < |items| && items[k] == p && Seen(items, k);
    var next := InsertList(items, x, Prepend);
    assert next == [x] + items && next[k + 1] == p;
    NoRun(x, true);
    if k > 0 {
      NoRun(items[0], false);
      assert next[k] == items[k - 1];
    }
    assert Seen(next, k + 1);
  }

  lemma PrependedIsSeen(items: seq<string>, x: string)
    requires NoBackslash(x)
    ensures Sees(InsertList(items, x, Prepend), x) && StartsClean(InsertList(items, x, Prepend))
  {
    var next := InsertList(items, x, Prepend);
    assert next[0] == x && Seen(next, 0);
  }

  predicate AllSeen(items: seq<string>, mentioned: seq<string>) {
    forall q :: q in mentioned && Keyless(q) ==> Sees(items, q)
  }

  /** The first insertion of the tail, if there was one, is of an item that the tail mentions
      there for the first time; all that is mentioned from there on is seen. */
  lemma {:induction false} PrependTail(items: seq<string>, tail: seq<string>, n: nat) returns (m: nat)
    requires n <= |tail| && Clean(tail) && KeysSettled(items, tail)
    ensures m <= n && KeysSettled(MergeList(items, tail[..n], Prepend), tail)
    ensures m == n ==> MergeList(items, tail[..n], Prepend) == items && AllSeen(items, tail[..n])
    ensures m < n ==>
              && Keyless(tail[m]) && tail[m] !in tail[..m]
              && StartsClean(MergeList(items, tail[..n], Prepend))
              && AllSeen(MergeList(items, tail[..n], Prepend), tail[m..n])
  {
    if n == 0 {
      m := 0;
    } else {
      m := PrependTail(items, tail, n - 1);
      m := PrependTailStep(items, tail, n - 1, m);
    }
  }

  lemma PrependTailStep(items: seq<string>, tail: seq<string>, n: nat, m: nat) returns (m2: nat)
    requires m <= n < |tail| && Clean(tail) && KeysSettled(MergeList(items, tail[..n], Prepend), tail)
    requires m == n ==> MergeList(items, tail[..n], Prepend) == items && AllSeen(items, tail[..n])
    requires m < n ==>
               && Keyless(tail[m]) && tail[m] !in tail[..m]
               && StartsClean(MergeList(items, tail[..n], Prepend))
               && AllSeen(MergeList(items, tail[..n], Prepend), tail[m..n])
    ensures m2 <= n + 1 && KeysSettled(MergeList(items, tail[..n + 1], Prepend), tail)
    ensures m2 == n + 1 ==> MergeList(items, tail[..n + 1], Prepend) == items && AllSeen(items, tail[..n + 1])
    ensures m2 < n + 1 ==>
              && Keyless(tail[m2]) && tail[m2] !in tail[..m2]
              && StartsClean(MergeList(items, tail[..n + 1], Prepend))
              && AllSeen(MergeList(items, tail[..n + 1], Prepend), tail[m2..n + 1])
  {
    var before, x := MergeList(items, tail[..n], Prepend), tail[n];
    assert tail[..n + 1][..n] == tail[..n] && tail[..n + 1] == tail[..n] + [x];
    assert tail[m..n + 1] == tail[m..n] + [x];
    assert NoBackslash(x);
    m2 := m;
    if x == "" {
      m2 := if m == n then n + 1 else m;
    } else {
      TailStep(before, tail, n, Prepend);
      if Keyless(x) {
        SettledIffSees(before, x);
      }
      if Settled(before, x) {
        m2 := if m == n then n + 1 else m;
      } else {
        PrependedIsSeen(before, x);
        if m < n {
          forall q | q in tail[m..n] && Keyless(q)
            ensures Sees(InsertList(before, x, Prepend), q)
          {
            PrependKeeps(before, x, q);
          }
        } else {
          assert tail[n..n + 1] == [x];
        }
      }
    }
    hide Sees;
    hide Settled;
    hide StartsClean;
    hide MergeListItem;
    hide InsertList;
  }

  lemma PrependTailSees(items: seq<string>, tail: seq<string>, p: string)
    requires Clean(tail) && KeysSettled(items, tail) && Keyless(p) && AfterOthers(tail, p)
    ensures Sees(MergeList(items, tail, Prepend), p)
  {
    var n := |tail|;
    var m := PrependTail(items, tail, n);
    assert tail[..n] == tail && tail[m..n] == tail[m..];
    if m < n {
      assert tail[m..] == [tail[m]] + tail[m + 1..];
    }
    hide Sees;
  }

  // ----- a renewed value settles everything

  lemma {:induction false} TailMentionsNoNewKey(news: seq<string>, n: nat, j: nat)
    requires n <= |news| && TailStart(news, n) <= j < n && ':' in news[j]
    ensures news[j] in news[..j]
  {
    if j < n - 1 {
      TailMentionsNoNewKey(news, n - 1, j);
    }
  }

  /** A key of the tail was mentioned before it. */
  lemma {:induction false} KeyedEarlier(news: seq<string>, j: nat)
    requires TailStart(news, |news|) <= j < |news| && ':' in news[j]
    ensures news[j] in news[..TailStart(news, |news|)]
  {
    var b := TailStart(news, |news|);
    TailMentionsNoNewKey(news, |news|, j);
    var i :| 0 <= i < j && news[..j][i] == news[j];
    assert news[i] == news[j];
    if i >= b {
      KeyedEarlier(news, i);
    } else {
      assert news[..b][i] == news[j];
    }
  }

  lemma ConstantKeySettles(items: seq<string>, news: seq<string>, n: nat, op: SetOp, x: string)
    requires n <= |news| && op != Remove && ':' in x && x in news[..n] && Constant(news, x)
    ensures Settled(MergeList(items, news[..n], op), x)
  {
    var k :| 0 <= k < n && news[..n][k] == x;
    assert news[k] == x;
    MentionedLast(news, n, k, KeyOf(x));
    LastIsConstant(news, n, x);
    MergedKey(items, news[..n], op, x);
  }

  lemma TailKeysSettled(items: seq<string>, news: seq<string>, op: SetOp)
    requires op != Remove && AllConstant(news)
    ensures var b := TailStart(news, |news|); KeysSettled(MergeList(items, news[..b], op), news[b..])
  {
    var b := TailStart(news, |news|);
    forall x | x in news[b..] && ':' in x
      ensures Settled(MergeList(items, news[..b], op), x)
    {
      var j :| 0 <= j < |news| - b && news[b..][j] == x;
      assert news[b + j] == x;
      KeyedEarlier(news, b + j);
      ConstantKeySettles(items, news, b, op, x);
    }
  }

  predicate EachSettled(items: seq<string>, news: seq<string>) {
    forall x :: x in news && x != "" ==> Settled(items, x)
  }

  lemma {:induction false} EachSettledStays(items: seq<string>, news: seq<string>, op: SetOp)
    requires op != Remove && EachSettled(items, news)
    ensures MergeList(items, news, op) == items
  {
    if news != [] {
      var n := |news| - 1;
      assert forall x :: x in news[..n] ==> x in news;
      EachSettledStays(items, news[..n], op);
      if news[n] != "" {
        SettledStays(items, news[n], op);
      }
    }
  }

  lemma RenewedIsSettled(items: seq<string>, news: seq<string>, op: SetOp)
    requires op != Remove && Clean(news) && AllConstant(news) && Renewed(news, op)
    ensures EachSettled(MergeList(items, news, op), news)
  {
    var b := TailStart(news, |news|);
    var tail, before := news[b..], MergeList(items, news[..b], op);
    assert news[..b] + tail == news && news[..|news|] == news && tail[..|tail|] == tail;
    MergeConcat(items, news[..b], tail, op);
    TailKeysSettled(items, news, op);
    assert Clean(tail);
    hide MergeList;
    forall x | x in news && x != ""
      ensures Settled(MergeList(items, news, op), x)
    {
      if ':' in x {
        var k :| 0 <= k < |news| && news[k] == x;
        ConstantKeySettles(items, news, |news|, op, x);
      } else {
        assert RenewedIn(tail, op, x);
        SettledIffSees(MergeList(before, tail, op), x);
        if op == Prepend {
          PrependTailSees(before, tail, x);
        } else {
          AppendTail(before, tail, |tail|, x);
        }
      }
    }
  }
}
