/** The search for a whole item counts the backslashes before a comma; which items it finds. */
module OptionSearch {
  import opened Wrappers
  import opened CommaItems
  import opened OptionMerge

  // ----- in the text

  /** The backslashes that end the first n characters; one right after a comma is not counted. */
  function Run(s: string, n: nat): nat
    requires n <= |s|
  {
    if n > 0 && s[n - 1] == '\\' && (n == 1 || s[n - 2] != ',') then Run(s, n - 1) + 1 else 0
  }

  /** The search can begin an item here: at the start, or after a comma with an even run of
      backslashes before it. */
  predicate Begins(s: string, i: nat)
    requires i <= |s|
  {
    i == 0 || (s[i - 1] == ',' && Run(s, i - 1) % 2 == 0)
  }

  predicate DupAt(s: string, x: string, i: nat)
    requires i < |s|
  {
    Begins(s, i) && Occurs(x, s, i) && (i + |x| == |s| || s[i + |x|] == ',')
  }

  /** What the loop has counted when it comes to an offset. */
  function Counted(s: string, i: nat): nat
    requires i <= |s|
  {
    if i == 0 then 0 else Run(s, i - 1)
  }

  /** The search finds the first such offset. */
  lemma {:induction false} FindDupFrom(s: string, x: string, i: nat)
    requires i <= |s|
    ensures match FindDup(s, x, true, i, Counted(s, i))
            case None => forall j :: i <= j < |s| ==> !DupAt(s, x, j)
            case Some(at) => i <= at && DupAt(s, x, at) && forall j :: i <= j < at ==> !DupAt(s, x, j)
    decreases |s| - i
  {
    if i < |s| {
      assert DupHere(s, x, true, i, Counted(s, i)) == DupAt(s, x, i);
      assert Backslashes(s, i, Counted(s, i)) == Counted(s, i + 1);
      FindDupFrom(s, x, i + 1);
    }
  }

  lemma FindDupFirst(s: string, x: string)
    ensures match FindDup(s, x, true, 0, 0)
            case None => forall j :: 0 <= j < |s| ==> !DupAt(s, x, j)
            case Some(at) => DupAt(s, x, at) && forall j :: 0 <= j < at ==> !DupAt(s, x, j)
  {
    FindDupFrom(s, x, 0);
  }

  // ----- in the list

  /** The counted backslashes that end an item; the first item of a text counts them all. */
  function EndRun(y: string, first: bool): nat {
    if y != [] && y[|y| - 1] == '\\' && (|y| > 1 || first) then EndRun(y[..|y| - 1], first) + 1 else 0
  }

  /** The search sees the k-th item: the item before it does not end in an odd run. */
  predicate Seen(items: seq<string>, k: nat)
    requires k < |items|
  {
    k == 0 || EndRun(items[k - 1], k == 1) % 2 == 0
  }

  /** The first seen item from the k-th on that is x, or the number of items. */
  function FirstSeen(items: seq<string>, x: string, k: nat): (f: nat)
    requires k <= |items|
    ensures k <= f <= |items| && (f < |items| ==> items[f] == x && Seen(items, f))
    decreases |items| - k
  {
    if k == |items| || (items[k] == x && Seen(items, k)) then k else FirstSeen(items, x, k + 1)
  }

  lemma {:induction false} FirstSeenIs(items: seq<string>, x: string, k: nat)
    requires k <= |items|
    ensures forall i :: k <= i < FirstSeen(items, x, k) ==> !(items[i] == x && Seen(items, i))
    decreases |items| - k
  {
    if k < |items| && !(items[k] == x && Seen(items, k)) {
      FirstSeenIs(items, x, k + 1);
    }
  }

  lemma {:induction false} RunInItem(s: string, y: string, at: nat, m: nat)
    requires Whole(y, s, at) && CommaFree(y) && m <= |y|
    ensures Run(s, at + m) == EndRun(y[..m], at == 0)
  {
    if m > 0 {
      RunInItem(s, y, at, m - 1);
      assert y[..m][..m - 1] == y[..m - 1];
      assert s[at + (m - 1)] == y[m - 1];
      assert m > 1 ==> s[at + (m - 2)] == y[m - 2];
    }
  }

  /** The run before the comma that ends an item is the item's. */
  lemma RunAtEnd(items: seq<string>, k: nat)
    requires AllCommaFree(items) && k < |items|
    ensures StartOf(items, k) + |items[k]| <= |Join(items)|
    ensures Run(Join(items), StartOf(items, k) + |items[k]|) == EndRun(items[k], k == 0)
  {
    hide *;
    var y := items[k];
    ItemAt(items, k);
    StartIsZero(items, k);
    ItemCommaFree(items, k);
    assert y[..|y|] == y;
    RunInItem(Join(items), y, StartOf(items, k), |y|);
  }

  lemma StartIsZero(items: seq<string>, k: nat)
    requires k <= |items|
    ensures StartOf(items, k) == 0 <==> k == 0
  {
  }

  lemma CommaBefore(items: seq<string>, k: nat)
    requires 0 < k < |items|
    ensures StartOf(items, k) == StartOf(items, k - 1) + |items[k - 1]| + 1 <= |Join(items)|
    ensures Join(items)[StartOf(items, k) - 1] == ','
  {
    hide *;
    ItemAt(items, k - 1);
    ItemAt(items, k);
    WholeComma(items[k], Join(items), StartOf(items, k));
  }

  lemma WholeComma(x: string, s: string, at: nat)
    requires Whole(x, s, at) && 0 < at <= |s|
    ensures s[at - 1] == ','
  {
  }

  lemma BeginsAfter(s: string, y: string, first: bool, at: nat)
    requires 0 < at <= |s| && s[at - 1] == ',' && Run(s, at - 1) == EndRun(y, first)
    ensures Begins(s, at) <==> EndRun(y, first) % 2 == 0
  {
    hide Run;
    hide EndRun;
  }

  lemma BeginsFirst(items: seq<string>)
    requires items != []
    ensures StartOf(items, 0) == 0 && Begins(Join(items), 0) && Seen(items, 0)
  {
  }

  lemma SeenLater(items: seq<string>, k: nat)
    requires 0 < k < |items|
    ensures Seen(items, k) <==> EndRun(items[k - 1], k == 1) % 2 == 0
  {
  }

  /** The search can begin where the k-th item starts exactly if it sees that item. */
  lemma BeginsIffSeen(items: seq<string>, k: nat)
    requires AllCommaFree(items) && k < |items|
    ensures StartOf(items, k) <= |Join(items)|
    ensures Begins(Join(items), StartOf(items, k)) <==> Seen(items, k)
  {
    hide *;
    if k == 0 {
      BeginsFirst(items);
    } else {
      CommaBefore(items, k);
      RunAtEnd(items, k - 1);
      BeginsAfter(Join(items), items[k - 1], k == 1, StartOf(items, k));
      SeenLater(items, k);
    }
  }

  lemma NoCommaWithin(s: string, x: string, at: nat)
    requires Occurs(x, s, at) && CommaFree(x)
    ensures forall h :: at <= h < at + |x| ==> s[h] != ','
  {
    forall h | at <= h < at + |x|
      ensures s[h] != ','
    {
      assert s[at + (h - at)] == x[h - at];
    }
  }

  lemma SameWhole(s: string, x: string, y: string, at: nat)
    requires Whole(x, s, at) && Whole(y, s, at) && CommaFree(x) && CommaFree(y)
    ensures x == y
  {
    NoCommaWithin(s, x, at);
    NoCommaWithin(s, y, at);
    assert forall j :: 0 <= j < |x| && j < |y| ==> x[j] == s[at + j] == y[j];
  }

  lemma PastItem(s: string, y: string, start: nat, at: nat)
    requires Whole(y, s, start) && CommaFree(y) && start < at <= |s| && s[at - 1] == ','
    ensures start + |y| < at
  {
    NoCommaWithin(s, y, start);
  }

  /** A whole item's offset is where an item of the list starts. */
  lemma {:induction false} WholeIsItem(items: seq<string>, x: string, at: nat, k: nat) returns (f: nat)
    requires AllCommaFree(items) && CommaFree(x) && k < |items| && at < |Join(items)|
    requires Whole(x, Join(items), at) && StartOf(items, k) <= at
    ensures f < |items| && items[f] == x && StartOf(items, f) == at
    decreases |items| - k
  {
    ItemAt(items, k);
    ItemCommaFree(items, k);
    hide Join;
    hide StartOf;
    hide AllCommaFree;
    hide CommaFree;
    hide Occurs;
    var start := StartOf(items, k);
    if at == start {
      SameWhole(Join(items), x, items[k], at);
      f := k;
    } else {
      PastItem(Join(items), items[k], start, at);
      f := WholeIsItem(items, x, at, k + 1);
    }
  }

  /** An offset at which the search succeeds is the start of a seen item. */
  lemma DupIsSeen(items: seq<string>, x: string, at: nat) returns (f: nat)
    requires AllCommaFree(items) && items != [] && CommaFree(x) && at < |Join(items)| && DupAt(Join(items), x, at)
    ensures f < |items| && items[f] == x && StartOf(items, f) == at && Seen(items, f)
  {
    assert Whole(x, Join(items), at);
    StartIsZero(items, 0);
    hide *;
    f := WholeIsItem(items, x, at, 0);
    BeginsIffSeen(items, f);
    DupBegins(Join(items), x, at);
  }

  lemma DupBegins(s: string, x: string, at: nat)
    requires at < |s| && DupAt(s, x, at)
    ensures Begins(s, at)
  {
  }

  lemma SeenIsDup(items: seq<string>, f: nat)
    requires AllCommaFree(items) && f < |items| && items[f] != "" && Seen(items, f)
    ensures StartOf(items, f) < |Join(items)| && DupAt(Join(items), items[f], StartOf(items, f))
  {
    ItemAt(items, f);
    BeginsIffSeen(items, f);
    hide Join;
    hide StartOf;
    hide Run;
    hide EndRun;
    hide Begins;
  }

  lemma {:induction false} StartsRise(items: seq<string>, j: nat, k: nat)
    requires j < k < |items|
    ensures StartOf(items, j) < StartOf(items, k)
  {
    NextBefore(items, k - 1);
    hide Before;
    hide Join;
    if j < k - 1 {
      StartsRise(items, j, k - 1);
    }
  }

  /** The offset search for a whole item is the search in the list for a seen one. */
  lemma FindDupIs(items: seq<string>, x: string)
    requires AllCommaFree(items) && items != [] && CommaFree(x) && x != ""
    ensures FindDup(Join(items), x, true, 0, 0) == FoundAt(items, FirstSeen(items, x, 0))
  {
    var s, f := Join(items), FirstSeen(items, x, 0);
    var found := FindDup(s, x, true, 0, 0);
    FindDupFirst(s, x);
    FirstSeenIs(items, x, 0);
    FoundAtIs(items, f);
    if f < |items| {
      SeenIsDup(items, f);
    }
    hide *;
    if found.Some? {
      var g := DupIsSeen(items, x, found.value);
      if f < g {
        StartsRise(items, f, g);
      }
    }
  }
}
