/** Comma-separated text as a list of items, for option values and search paths.

    The empty text is one empty item, and n commas separate n + 1 items. `Items` and `Join`
    are inverse on lists without commas; `Before` and `After` are the text around one item,
    which is how an offset in the text is related to a position in the list; and `Filter`
    selects the items that a test accepts, in order. */
module CommaItems {

  predicate CommaFree(item: string) {
    forall i :: 0 <= i < |item| ==> item[i] != ','
  }

  predicate AllCommaFree(items: seq<string>) {
    forall k :: 0 <= k < |items| ==> CommaFree(items[k])
  }

  /** The text holds x at this offset. */
  predicate Occurs(x: string, s: string, at: nat) {
    at + |x| <= |s| && forall j :: 0 <= j < |x| ==> s[at + j] == x[j]
  }

  function Join(items: seq<string>): string {
    if items == [] then "" else if |items| == 1 then items[0] else items[0] + "," + Join(items[1..])
  }

  function FirstComma(s: string): (n: nat)
    ensures n <= |s| && CommaFree(s[..n]) && (n < |s| ==> s[n] == ',')
  {
    if s == "" || s[0] == ',' then 0
    else
      var n := FirstComma(s[1..]);
      assert s[..n + 1] == [s[0]] + s[1..][..n];
      n + 1
  }

  function Items(s: string): (items: seq<string>)
    ensures items != [] && AllCommaFree(items) && Join(items) == s
    decreases |s|
  {
    var n := FirstComma(s);
    if n == |s| then assert s[..n] == s; [s]
    else
      var rest := Items(s[n + 1..]);
      assert ([s[..n]] + rest)[1..] == rest;
      assert s == s[..n] + "," + s[n + 1..];
      [s[..n]] + rest
  }

  // ----- around one item

  function Before(items: seq<string>, k: nat): string
    requires k <= |items|
  {
    if k == 0 then "" else Join(items[..k]) + ","
  }

  function After(items: seq<string>, k: nat): string
    requires k < |items|
  {
    if k == |items| - 1 then "" else "," + Join(items[k + 1..])
  }

  lemma {:induction false} JoinConcat(a: seq<string>, b: seq<string>)
    requires a != [] && b != []
    ensures Join(a + b) == Join(a) + "," + Join(b)
  {
    assert (a + b)[1..] == a[1..] + b;
    if |a| > 1 {
      JoinConcat(a[1..], b);
    } else {
      assert a[1..] + b == b;
    }
  }

  lemma {:induction false} SplitAround(items: seq<string>, k: nat)
    requires k < |items|
    ensures Join(items) == Before(items, k) + items[k] + After(items, k)
  {
    if k > 0 {
      SplitAround(items[1..], k - 1);
      BeforeStep(items, k);
      AfterStep(items, k);
      JoinStep(items);
      hide Before;
      hide After;
      hide Join;
      Regroup(items[0] + ",", Before(items[1..], k - 1), items[k], After(items, k));
    }
  }

  lemma JoinStep(items: seq<string>)
    requires |items| > 1
    ensures Join(items) == items[0] + "," + Join(items[1..])
  {
  }

  lemma Regroup(a: string, b: string, c: string, d: string)
    ensures (a + b) + c + d == a + (b + c + d)
  {
  }

  lemma AfterStep(items: seq<string>, k: nat)
    requires 0 < k < |items|
    ensures After(items, k) == After(items[1..], k - 1)
  {
    assert items[1..][k..] == items[k + 1..];
  }

  lemma BeforeStep(items: seq<string>, k: nat)
    requires 0 < k < |items|
    ensures Before(items, k) == items[0] + "," + Before(items[1..], k - 1)
  {
    assert items[..k][1..] == items[1..][..k - 1];
  }

  lemma {:induction false} JoinItems(items: seq<string>)
    requires items != [] && AllCommaFree(items)
    ensures Items(Join(items)) == items
  {
    var s, x := Join(items), items[0];
    assert CommaFree(x);
    assert s[..|x|] == x;
    FirstCommaIs(s, |x|);
    if |items| > 1 {
      JoinItems(items[1..]);
      assert s[|x| + 1..] == Join(items[1..]);
      assert items == [x] + items[1..];
    }
  }

  lemma {:induction false} FirstCommaIs(s: string, n: nat)
    requires n <= |s| && CommaFree(s[..n]) && (n < |s| ==> s[n] == ',')
    ensures FirstComma(s) == n
  {
    if n > 0 {
      assert s[..n] == [s[0]] + s[1..][..n - 1];
      assert s[..n][0] == s[0];
      FirstCommaIs(s[1..], n - 1);
    }
  }

  lemma ItemCommaFree(items: seq<string>, k: nat)
    requires AllCommaFree(items) && k < |items|
    ensures CommaFree(items[k])
  {
  }

  /** Without the k-th item; the text of a sole item becomes empty. */
  function RemoveAt(items: seq<string>, k: nat): (r: seq<string>)
    requires k < |items|
    ensures r != []
  {
    if |items| == 1 then [""] else items[..k] + items[k + 1..]
  }

  /** The list an item list stands for when all of its items are gone. */
  function Normal(items: seq<string>): (r: seq<string>)
    ensures r != []
  {
    if items == [] then [""] else items
  }

  function Filter(items: seq<string>, p: string -> bool): seq<string> {
    if items == [] then [] else (if p(items[0]) then [items[0]] else []) + Filter(items[1..], p)
  }

  function NonEmpty(): string -> bool {
    (item: string) => item != ""
  }

  /** The items of a text that are not empty. */
  function TextItems(text: string): seq<string> {
    Filter(Items(text), NonEmpty())
  }

  lemma {:induction false} FilterConcat(a: seq<string>, b: seq<string>, p: string -> bool)
    ensures Filter(a + b, p) == Filter(a, p) + Filter(b, p)
  {
    if a == [] {
      assert a + b == b;
    } else {
      assert (a + b)[1..] == a[1..] + b;
      FilterConcat(a[1..], b, p);
    }
  }

  lemma {:induction false} FilterIn(items: seq<string>, p: string -> bool)
    ensures forall x :: x in Filter(items, p) <==> x in items && p(x)
  {
    if items != [] {
      FilterIn(items[1..], p);
      assert items == [items[0]] + items[1..];
    }
  }

  lemma {:induction false} FilterAll(items: seq<string>, p: string -> bool)
    requires forall x :: x in items ==> p(x)
    ensures Filter(items, p) == items
  {
    if items != [] {
      FilterAll(items[1..], p);
    }
  }

  lemma {:induction false} FilterNone(items: seq<string>, p: string -> bool)
    requires forall x :: x in items ==> !p(x)
    ensures Filter(items, p) == []
  {
    if items != [] {
      FilterNone(items[1..], p);
    }
  }

  /** Taking out an item the test rejects does not change what the test selects. */
  lemma FilterRemoved(items: seq<string>, k: nat, p: string -> bool)
    requires k < |items| && !p(items[k]) && !p("")
    ensures Filter(RemoveAt(items, k), p) == Filter(items, p)
  {
    var l, x, r := items[..k], items[k], items[k + 1..];
    assert items == l + ([x] + r);
    assert Filter([x], p) == [] && Filter([""], p) == [];
    assert |items| == 1 ==> l + r == [];
    hide Filter;
    FilterConcat(l, [x] + r, p);
    FilterConcat([x], r, p);
    FilterConcat(l, r, p);
  }

  lemma FilterNormal(items: seq<string>, p: string -> bool)
    requires !p("")
    ensures Filter(Normal(items), p) == Filter(items, p)
  {
  }

  lemma {:induction false} FilterTwice(items: seq<string>, p: string -> bool, q: string -> bool)
    requires forall x :: p(x) ==> q(x)
    ensures Filter(Filter(items, q), p) == Filter(items, p)
  {
    if items != [] {
      FilterTwice(items[1..], p, q);
      FilterConcat(if q(items[0]) then [items[0]] else [], Filter(items[1..], q), p);
    }
  }
}
