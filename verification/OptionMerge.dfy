/** The `:set+=`, `:set^=` and `:set-=` merges of a string option.

    The methods search and edit texts at character offsets, as the code does, and each is
    proved against a function. For a keyed merge that function works on the list of items,
    so the methods' proofs relate offsets to positions in the list: where an item starts,
    where a search resumes after it, and what taking it out with one of its commas leaves.
    Backslashes count in `FindDup` only, which looks for a whole item. */
module OptionMerge {
  import opened Wrappers
  import opened CommaItems

  datatype SetOp = Append | Prepend | Remove

  datatype ListKind = Plain | Comma | OneComma | CommaColon | OneCommaColon | Flags | FlagsComma

  predicate CommaSeparated(kind: ListKind) {
    kind.Comma? || kind.OneComma? || kind.CommaColon? || kind.OneCommaColon? || kind.FlagsComma?
  }

  predicate NoEmptyItems(kind: ListKind) {
    kind.OneComma? || kind.OneCommaColon?
  }

  predicate Keyed(kind: ListKind) {
    kind.CommaColon? || kind.OneCommaColon?
  }

  predicate FlagList(kind: ListKind) {
    kind.Flags? || kind.FlagsComma?
  }

  // ----- finding an item already there

  predicate DupHere(s: string, needle: string, comma: bool, index: nat, backslashes: nat)
    requires index < |s|
  {
    && (!comma || index == 0 || (s[index - 1] == ',' && backslashes % 2 == 0))
    && Occurs(needle, s, index)
    && (!comma || index + |needle| == |s| || s[index + |needle|] == ',')
  }

  function Backslashes(s: string, index: nat, backslashes: nat): nat
    requires index < |s|
  {
    if (index > 1 && s[index - 1] == '\\' && s[index - 2] != ',') || (index == 1 && s[0] == '\\') then backslashes + 1
    else 0
  }

  function FindDup(s: string, needle: string, comma: bool, index: nat, backslashes: nat): (r: Option<nat>)
    requires index <= |s|
    ensures r.Some? ==> r.value < |s| && r.value + |needle| <= |s|
    decreases |s| - index
  {
    if index == |s| then None
    else if DupHere(s, needle, comma, index, backslashes) then Some(index)
    else FindDup(s, needle, comma, index + 1, Backslashes(s, index, backslashes))
  }

  method FindDupItem(origval: string, newval: string, comma: bool) returns (r: Option<nat>)
    ensures r == FindDup(origval, newval, comma, 0, 0)
  {
    var backslashes := 0;
    for index := 0 to |origval|
      invariant FindDup(origval, newval, comma, 0, 0) == FindDup(origval, newval, comma, index, backslashes)
    {
      var startsItem := !comma || index == 0 || (origval[index - 1] == ',' && backslashes % 2 == 0);
      if startsItem && Occurs(newval, origval, index)
         && (!comma || index + |newval| == |origval| || origval[index + |newval|] == ',')
      {
        return Some(index);
      }
      if (index > 1 && origval[index - 1] == '\\' && origval[index - 2] != ',') || (index == 1 && origval[0] == '\\') {
        backslashes := backslashes + 1;
      } else {
        backslashes := 0;
      }
    }
    return None;
  }

  // ----- keyed items

  function HasKey(key: string): string -> bool {
    (item: string) => Occurs(key, item, 0)
  }

  function LacksKey(key: string): string -> bool {
    (item: string) => !Occurs(key, item, 0)
  }

  function Is(x: string): string -> bool {
    (item: string) => item == x
  }

  function FirstColon(item: string): (n: nat)
    requires ':' in item
    ensures n < |item| && item[n] == ':' && ':' !in item[..n]
  {
    if item[0] == ':' then 0
    else
      assert item == [item[0]] + item[1..];
      var n := FirstColon(item[1..]);
      assert item[..n + 1] == [item[0]] + item[1..][..n];
      n + 1
  }

  /** The key of an item, with its colon. */
  function KeyOf(item: string): (key: string)
    requires ':' in item
    ensures key != "" && Occurs(key, item, 0)
  {
    item[..FirstColon(item) + 1]
  }

  function FindKey(s: string, key: string, from: nat): (r: Option<nat>)
    ensures r.Some? ==> r.value < |s|
    decreases |s| - from
  {
    if from >= |s| then None
    else if (from == 0 || s[from - 1] == ',') && Occurs(key, s, from) then Some(from)
    else FindKey(s, key, from + 1)
  }

  /** The first item from an offset on whose text starts with the key: its offset and length. */
  method FindKeyItem(value: string, key: string, from: nat) returns (r: Option<(nat, nat)>)
    ensures match FindKey(value, key, from)
            case None => r == None
            case Some(at) => r == Some((at, FirstComma(value[at..])))
  {
    var index := from;
    while index < |value|
      invariant FindKey(value, key, from) == FindKey(value, key, index)
    {
      if (index == 0 || value[index - 1] == ',') && Occurs(key, value, index) {
        return Some((index, FirstComma(value[index..])));
      }
      index := index + 1;
    }
    return None;
  }

  function RemoveCommaItem(value: string, at: nat, len: nat): string
    requires at + len <= |value|
  {
    if at + len < |value| && value[at + len] == ',' then value[..at] + value[at + len + 1..]
    else if at > 0 && value[at - 1] == ',' then value[..at - 1] + value[at + len..]
    else value[..at]
  }

  function InsertItem(value: string, item: string, op: SetOp): string {
    if value == "" then item else if op == Prepend then item + "," + value else value + "," + item
  }

  // ----- what the offsets mean

  /** The first item from the k-th on with the key, or the number of items. */
  function FirstKeyed(items: seq<string>, key: string, k: nat): (f: nat)
    requires k <= |items|
    ensures k <= f <= |items|
    decreases |items| - k
  {
    if k == |items| || Occurs(key, items[k], 0) then k else FirstKeyed(items, key, k + 1)
  }

  function StartOf(items: seq<string>, k: nat): nat
    requires k <= |items|
  {
    |Before(items, k)|
  }

  lemma BeforeEnds(items: seq<string>, k: nat)
    requires 0 < k <= |items|
    ensures Before(items, k) != "" && Before(items, k)[StartOf(items, k) - 1] == ','
  {
  }

  lemma NextBefore(items: seq<string>, k: nat)
    requires k < |items| - 1
    ensures StartOf(items, k + 1) == StartOf(items, k) + |items[k]| + 1
  {
    if k > 0 {
      JoinConcat(items[..k], [items[k]]);
      assert items[..k] + [items[k]] == items[..k + 1];
    } else {
      assert items[..1] == [items[0]];
    }
  }

  /** The text from one offset to the next separator. */
  predicate Whole(x: string, s: string, at: nat) {
    Occurs(x, s, at) && (at == 0 || s[at - 1] == ',') && (at + |x| == |s| || s[at + |x|] == ',')
  }

  lemma PieceWhole(b: string, x: string, a: string)
    requires (b == "" || b[|b| - 1] == ',') && (a == "" || a[0] == ',')
    ensures Whole(x, b + x + a, |b|)
  {
  }

  /** The k-th item is whole where it starts. */
  lemma ItemAt(items: seq<string>, k: nat)
    requires k < |items|
    ensures Whole(items[k], Join(items), StartOf(items, k))
    ensures StartOf(items, k) + |items[k]| <= |Join(items)|
    ensures StartOf(items, k) + |items[k]| == |Join(items)| <==> k == |items| - 1
    ensures k < |items| - 1 ==> StartOf(items, k + 1) == StartOf(items, k) + |items[k]| + 1
  {
    SplitAround(items, k);
    if k < |items| - 1 {
      NextBefore(items, k);
    }
    if k > 0 {
      BeforeEnds(items, k);
    }
    assert k == 0 ==> Before(items, k) == "";
    assert k == |items| - 1 ==> After(items, k) == "";
    assert k < |items| - 1 ==> After(items, k) != "" && After(items, k)[0] == ',';
    hide Join;
    hide Before;
    hide After;
    PieceWhole(Before(items, k), items[k], After(items, k));
  }

  lemma {:induction false} NoKeyInside(s: string, key: string, i: nat, j: nat)
    requires 0 < i <= j <= |s| && forall h :: i - 1 <= h < j - 1 ==> s[h] != ','
    ensures FindKey(s, key, i) == FindKey(s, key, j)
    decreases j - i
  {
    if i < j {
      NoKeyInside(s, key, i + 1, j);
    }
  }

  lemma OccursInItem(s: string, x: string, at: nat, key: string)
    requires Whole(x, s, at) && CommaFree(key)
    ensures Occurs(key, s, at) <==> Occurs(key, x, 0)
  {
    if Occurs(key, x, 0) {
      forall j | 0 <= j < |key|
        ensures s[at + j] == key[j]
      {
        assert x[0 + j] == key[j];
      }
    } else if |key| <= |x| {
      var j :| 0 <= j < |key| && x[0 + j] != key[j];
      assert s[at + j] == x[j];
    } else if at + |key| <= |s| {
      assert s[at + |x|] == ',' && key[|x|] != ',';
    }
  }

  lemma {:induction false} FirstKeyedIs(items: seq<string>, key: string, k: nat)
    requires k <= |items|
    ensures var f := FirstKeyed(items, key, k);
            (f < |items| ==> Occurs(key, items[f], 0)) && forall i :: k <= i < f ==> !Occurs(key, items[i], 0)
    decreases |items| - k
  {
    if k < |items| && !Occurs(key, items[k], 0) {
      FirstKeyedIs(items, key, k + 1);
    }
  }

  lemma KeyPastItem(s: string, x: string, at: nat, key: string)
    requires Whole(x, s, at) && CommaFree(x) && CommaFree(key) && key != ""
    ensures FindKey(s, key, at)
         == if Occurs(key, x, 0) then Some(at) else if at + |x| == |s| then None else FindKey(s, key, at + |x| + 1)
  {
    OccursInItem(s, x, at, key);
    var end := at + |x|;
    if !Occurs(key, x, 0) && at < |s| {
      forall h | at <= h < end
        ensures s[h] != ','
      {
        assert x[h - at] == s[at + (h - at)];
      }
      assert FindKey(s, key, at) == FindKey(s, key, at + 1);
      hide Occurs;
      NoKeyInside(s, key, at + 1, if end == |s| then |s| else end + 1);
    }
  }

  function FoundAt(items: seq<string>, f: nat): Option<nat>
    requires f <= |items|
  {
    if f == |items| then None else Some(StartOf(items, f))
  }

  lemma KeyStep(items: seq<string>, key: string, k: nat)
    requires AllCommaFree(items) && CommaFree(key) && key != "" && k < |items|
    ensures StartOf(items, k) <= |Join(items)| && (k < |items| - 1 ==> StartOf(items, k + 1) <= |Join(items)|)
    ensures Occurs(key, items[k], 0) ==> FindKey(Join(items), key, StartOf(items, k)) == Some(StartOf(items, k))
    ensures !Occurs(key, items[k], 0) && k == |items| - 1 ==> FindKey(Join(items), key, StartOf(items, k)) == None
    ensures !Occurs(key, items[k], 0) && k < |items| - 1 ==>
              FindKey(Join(items), key, StartOf(items, k)) == FindKey(Join(items), key, StartOf(items, k + 1))
  {
    var s, x, at := Join(items), items[k], StartOf(items, k);
    ItemAt(items, k);
    ItemCommaFree(items, k);
    hide *;
    KeyPastItem(s, x, at, key);
  }

  lemma {:induction false} FindKeyIs(items: seq<string>, key: string, k: nat)
    requires AllCommaFree(items) && CommaFree(key) && key != "" && k < |items|
    ensures StartOf(items, k) <= |Join(items)|
    ensures FindKey(Join(items), key, StartOf(items, k)) == FoundAt(items, FirstKeyed(items, key, k))
    decreases |items| - k
  {
    hide AllCommaFree;
    hide CommaFree;
    hide Join;
    hide StartOf;
    hide FindKey;
    hide Occurs;
    KeyStep(items, key, k);
    if !Occurs(key, items[k], 0) && k < |items| - 1 {
      FindKeyIs(items, key, k + 1);
    }
  }

  lemma RemovePiece(b: string, x: string, a: string)
    requires (b == "" || b[|b| - 1] == ',') && (a == "" || a[0] == ',')
    ensures RemoveCommaItem(b + x + a, |b|, |x|) == if a != "" then b + a[1..] else if b != "" then b[..|b| - 1] else ""
  {
    var s, at, end := b + x + a, |b|, |b| + |x|;
    assert s[..at] == b && s[end..] == a;
    if a != "" {
      assert s[end + 1..] == s[end..][1..];
    } else if b != "" {
      assert s[..at - 1] == s[..at][..at - 1] && s[at - 1] == b[at - 1];
      assert s[end..] == "";
    }
  }

  lemma RemoveCommaItemIs(items: seq<string>, k: nat)
    requires AllCommaFree(items) && k < |items|
    ensures StartOf(items, k) + |items[k]| <= |Join(items)|
    ensures RemoveCommaItem(Join(items), StartOf(items, k), |items[k]|) == Join(RemoveAt(items, k))
  {
    var l, r := items[..k], items[k + 1..];
    SplitAround(items, k);
    if k > 0 {
      BeforeEnds(items, k);
      assert Before(items, k)[..StartOf(items, k) - 1] == Join(l);
    }
    assert After(items, k) == if r == [] then "" else "," + Join(r);
    assert Before(items, k) == if l == [] then "" else Join(l) + ",";
    RemovePiece(Before(items, k), items[k], After(items, k));
    assert r == [] ==> l + r == l;
    if r != [] {
      RemovedBetween(l, r);
    }
    assert RemoveAt(items, k) == if l + r == [] then [""] else l + r;
    hide Before;
    hide After;
    hide Join;
    hide RemoveCommaItem;
    hide RemoveAt;
  }

  lemma RemovedBetween(l: seq<string>, r: seq<string>)
    requires r != []
    ensures (if l == [] then "" else Join(l) + ",") + Join(r) == Join(l + r)
  {
    if l != [] {
      JoinConcat(l, r);
    } else {
      assert l + r == r;
    }
  }

  // ----- the list a keyed merge computes

  function DropKey(items: seq<string>, key: string): (r: seq<string>)
    ensures r != []
  {
    Normal(Filter(items, LacksKey(key)))
  }

  /** The first item with the key stays, later ones go. */
  function KeepFirst(items: seq<string>, key: string): seq<string> {
    if items == [] then []
    else if Occurs(key, items[0], 0) then [items[0]] + Filter(items[1..], LacksKey(key))
    else [items[0]] + KeepFirst(items[1..], key)
  }

  function InsertList(items: seq<string>, item: string, op: SetOp): seq<string> {
    if items == [""] then [item] else if op == Prepend then [item] + items else items + [item]
  }

  function MergeKeyedItem(items: seq<string>, item: string, op: SetOp): seq<string>
    requires ':' in item
  {
    var key := KeyOf(item);
    if op == Remove then DropKey(items, key)
    else
      var f := FirstKeyed(items, key, 0);
      if f == |items| then InsertList(items, item, op)
      else if items[f] == item then KeepFirst(items, key)
      else InsertList(DropKey(items, key), item, op)
  }

  function MergeItem(s: string, item: string, op: SetOp): string {
    if ':' in item then Join(MergeKeyedItem(Items(s), item, op))
    else match FindDup(s, item, true, 0, 0)
      case Some(at) => if op == Remove then RemoveCommaItem(s, at, |item|) else s
      case None => if op == Remove then s else InsertItem(s, item, op)
  }

  function MergeEach(s: string, news: seq<string>, op: SetOp): string {
    if news == [] then s
    else
      var merged, item := MergeEach(s, news[..|news| - 1], op), news[|news| - 1];
      if item == "" then merged else MergeItem(merged, item, op)
  }

  function MergeKeyed(origval: string, newval: string, op: SetOp): Option<string> {
    if ':' !in newval && ',' !in newval then None else Some(MergeEach(origval, Items(newval), op))
  }

  lemma InsertIs(items: seq<string>, item: string, op: SetOp)
    requires items != []
    ensures InsertItem(Join(items), item, op) == Join(InsertList(items, item, op))
  {
    if items != [""] && op != Prepend {
      JoinConcat(items, [item]);
    } else if items != [""] {
      JoinConcat([item], items);
    }
  }

  // ----- removing a key in place

  lemma FirstCommaOf(s: string, x: string, at: nat)
    requires Whole(x, s, at) && CommaFree(x)
    ensures FirstComma(s[at..]) == |x|
  {
    var tail := s[at..];
    forall j | 0 <= j < |x|
      ensures tail[..|x|][j] != ','
    {
      assert tail[j] == s[at + j] == x[j];
    }
    FirstCommaIs(tail, |x|);
  }

  lemma FirstCommaAt(items: seq<string>, k: nat)
    requires AllCommaFree(items) && k < |items|
    ensures StartOf(items, k) <= |Join(items)| && FirstComma(Join(items)[StartOf(items, k)..]) == |items[k]|
  {
    ItemAt(items, k);
    FirstCommaOf(Join(items), items[k], StartOf(items, k));
  }

  lemma RemovedCommaFree(items: seq<string>, k: nat)
    requires AllCommaFree(items) && k < |items|
    ensures AllCommaFree(RemoveAt(items, k)) && Items(Join(RemoveAt(items, k))) == RemoveAt(items, k)
  {
    JoinItems(RemoveAt(items, k));
  }

  /** One removal at the offsets of an item takes that item out of the list, and the text
      gets shorter. */
  lemma RemovalIs(text: string, k: nat)
    requires k < |Items(text)| && Items(text)[k] != ""
    ensures var items := Items(text); var at, len := StartOf(items, k), |items[k]|;
            && at + len <= |text| && Items(RemoveCommaItem(text, at, len)) == RemoveAt(items, k)
            && |RemoveCommaItem(text, at, len)| < |text|
  {
    RemoveCommaItemIs(Items(text), k);
    RemovedCommaFree(Items(text), k);
  }

  lemma DropKeyStep(items: seq<string>, key: string, k: nat)
    requires k < |items| && Occurs(key, items[k], 0) && key != ""
    ensures DropKey(RemoveAt(items, k), key) == DropKey(items, key)
  {
    var l, x, r, p := items[..k], items[k], items[k + 1..], LacksKey(key);
    assert items == l + ([x] + r);
    assert Filter([x], p) == [] && Filter([""], p) == [""];
    assert |items| == 1 ==> l == [] && r == [] && Filter(l, p) == [] && Filter(r, p) == [];
    hide Filter;
    hide LacksKey;
    FilterConcat(l, [x] + r, p);
    FilterConcat([x], r, p);
    FilterConcat(l, r, p);
  }

  lemma DropKeyDone(items: seq<string>, key: string)
    requires items != [] && FirstKeyed(items, key, 0) == |items|
    ensures DropKey(items, key) == items
  {
    FirstKeyedIs(items, key, 0);
    FilterAll(items, LacksKey(key));
  }

  lemma {:induction false} KeepFirstIs(items: seq<string>, key: string, f: nat)
    requires f < |items| && Occurs(key, items[f], 0) && forall i :: 0 <= i < f ==> !Occurs(key, items[i], 0)
    ensures KeepFirst(items, key) == items[..f + 1] + Filter(items[f + 1..], LacksKey(key))
  {
    if f > 0 {
      assert !Occurs(key, items[0], 0);
      KeepFirstIs(items[1..], key, f - 1);
      assert items[1..][f..] == items[f + 1..];
      assert [items[0]] + items[1..][..f] == items[..f + 1];
    }
  }

  lemma CutLater<T>(items: seq<T>, f: nat, g: nat)
    requires f < g < |items|
    ensures var t := items[..g] + items[g + 1..];
            && t[..f + 1] == items[..f + 1] && t[f + 1..] == items[f + 1..g] + items[g + 1..]
            && items[f + 1..] == items[f + 1..g] + ([items[g]] + items[g + 1..])
            && forall i :: 0 <= i <= f ==> t[i] == items[i]
  {
  }

  lemma FilterWithout(m: seq<string>, x: string, r: seq<string>, p: string -> bool)
    requires !p(x)
    ensures Filter(m + ([x] + r), p) == Filter(m + r, p)
  {
    assert Filter([x], p) == [];
    hide Filter;
    FilterConcat(m, [x] + r, p);
    FilterConcat([x], r, p);
    FilterConcat(m, r, p);
  }

  lemma KeepFirstStep(items: seq<string>, key: string, f: nat, g: nat)
    requires f < g < |items| && Occurs(key, items[g], 0)
    requires Occurs(key, items[f], 0) && forall i :: 0 <= i < f ==> !Occurs(key, items[i], 0)
    ensures KeepFirst(RemoveAt(items, g), key) == KeepFirst(items, key)
  {
    var t, p := RemoveAt(items, g), LacksKey(key);
    CutLater(items, f, g);
    FilterWithout(items[f + 1..g], items[g], items[g + 1..], p);
    hide Filter;
    hide Occurs;
    hide KeepFirst;
    KeepFirstIs(items, key, f);
    KeepFirstIs(t, key, f);
  }

  lemma KeepFirstDone(items: seq<string>, key: string, f: nat)
    requires f < |items| && Occurs(key, items[f], 0)
    requires forall i :: 0 <= i < |items| && i != f ==> !Occurs(key, items[i], 0)
    ensures KeepFirst(items, key) == items
  {
    KeepFirstIs(items, key, f);
    FilterAll(items[f + 1..], LacksKey(key));
  }

  /** An offset and a length are those of the g-th item, which has the key. */
  predicate IsKeyed(text: string, key: string, g: nat) {
    var items := Items(text);
    g < |items| && Occurs(key, items[g], 0) && items[g] != "" && StartOf(items, g) <= |text|
      && FirstComma(text[StartOf(items, g)..]) == |items[g]|
  }

  lemma KeyedAt(text: string, key: string, g: nat)
    requires key != "" && g < |Items(text)| && Occurs(key, Items(text)[g], 0)
    ensures IsKeyed(text, key, g)
  {
    FirstCommaAt(Items(text), g);
  }

  /** The search from the start: an item's number for an offset. */
  lemma FoundIs(text: string, key: string)
    requires CommaFree(key) && key != ""
    ensures var f := FirstKeyed(Items(text), key, 0);
            FindKey(text, key, 0) == FoundAt(Items(text), f) && (f < |Items(text)| ==> IsKeyed(text, key, f))
  {
    var items := Items(text);
    FindKeyIs(items, key, 0);
    FirstKeyedIs(items, key, 0);
    if FirstKeyed(items, key, 0) < |items| {
      KeyedAt(text, key, FirstKeyed(items, key, 0));
    }
  }

  /** Where the code resumes the search after an item. */
  function Resume(text: string, at: nat, len: nat): nat {
    if at + len < |text| && text[at + len] == ',' then at + len + 1 else at + len
  }

  lemma ResumeIs(items: seq<string>, f: nat)
    requires f < |items|
    ensures var text, at, len := Join(items), StartOf(items, f), |items[f]|;
            Resume(text, at, len) == if f == |items| - 1 then |text| else StartOf(items, f + 1)
  {
    ItemAt(items, f);
    hide Join;
    hide StartOf;
  }

  lemma FindPastLast(items: seq<string>, key: string)
    ensures FindKey(Join(items), key, |Join(items)|) == FoundAt(items, FirstKeyed(items, key, |items|))
  {
  }

  lemma FoundAfter(items: seq<string>, key: string, f: nat)
    requires AllCommaFree(items) && CommaFree(key) && key != "" && f < |items|
    ensures var text, from := Join(items), Resume(Join(items), StartOf(items, f), |items[f]|);
            from <= |text| && FindKey(text, key, from) == FoundAt(items, FirstKeyed(items, key, f + 1))
  {
    ResumeIs(items, f);
    hide *;
    if f < |items| - 1 {
      FindKeyIs(items, key, f + 1);
    } else {
      FindPastLast(items, key);
    }
  }

  lemma FoundLater(text: string, key: string, f: nat)
    requires CommaFree(key) && key != "" && f < |Items(text)|
    ensures var items := Items(text);
            var g, from := FirstKeyed(items, key, f + 1), Resume(text, StartOf(items, f), |items[f]|);
            from <= |text| && FindKey(text, key, from) == FoundAt(items, g) && (g < |items| ==> IsKeyed(text, key, g))
  {
    hide *;
    var items := Items(text);
    var g := FirstKeyed(items, key, f + 1);
    FoundAfter(items, key, f);
    FirstKeyedIs(items, key, f + 1);
    if g < |items| {
      KeyedAt(text, key, g);
    }
  }

  /** Drops every item with the key, or every one after the item at `skip`. */
  method RemoveKeyItem(text: string, key: string, skip: Option<nat>) returns (value: string)
    requires CommaFree(key) && key != "" && (skip.Some? ==> FindKey(text, key, 0) == skip)
    ensures Items(value) == if skip.None? then DropKey(Items(text), key) else KeepFirst(Items(text), key)
    ensures value == Join(Items(value))
  {
    hide Join;
    hide Items;
    hide StartOf;
    hide FirstComma;
    hide FirstKeyed;
    hide FindKey;
    hide DropKey;
    hide KeepFirst;
    hide Occurs;
    hide CommaFree;
    hide RemoveCommaItem;
    hide RemoveAt;
    value := text;
    while true
      invariant skip.None? ==> DropKey(Items(value), key) == DropKey(Items(text), key)
      invariant skip.Some? ==>
                FindKey(value, key, 0) == skip && KeepFirst(Items(value), key) == KeepFirst(Items(text), key)
      decreases |value|
    {
      ghost var items := Items(value);
      ghost var f := FirstKeyed(items, key, 0);
      FoundIs(value, key);
      FirstKeyedIs(items, key, 0);
      var found := FindKeyItem(value, key, 0);
      if found.None? {
        DropKeyDone(items, key);
        return;
      }
      var (at, len) := found.value;
      ghost var gone := f;
      if skip == Some(at) {
        FoundLater(value, key, f);
        FirstKeyedIs(items, key, f + 1);
        var next := at + len;
        if next < |value| && value[next] == ',' {
          next := next + 1;
        }
        var later := FindKeyItem(value, key, next);
        if later.None? {
          KeepFirstDone(items, key, f);
          return;
        }
        at, len := later.value.0, later.value.1;
        gone := FirstKeyed(items, key, f + 1);
        KeepFirstStep(items, key, f, gone);
        FirstStays(value, key, f, gone);
      } else {
        DropKeyStep(items, key, f);
      }
      RemovalIs(value, gone);
      value := RemoveCommaItem(value, at, len);
    }
  }

  /** Removing a later item leaves the first one where it is. */
  lemma FirstStays(text: string, key: string, f: nat, g: nat)
    requires CommaFree(key) && key != "" && f < g < |Items(text)| && f == FirstKeyed(Items(text), key, 0)
    requires Items(text)[g] != ""
    ensures var items := Items(text); var at, len := StartOf(items, g), |items[g]|;
            at + len <= |text| && FindKey(RemoveCommaItem(text, at, len), key, 0) == Some(StartOf(items, f))
  {
    hide *;
    var items := Items(text);
    RemovalIs(text, g);
    var t := RemoveCommaItem(text, StartOf(items, g), |items[g]|);
    FoundIs(t, key);
    FirstKeyedStays(items, key, f, g);
    SameStart(items, f, g);
  }

  lemma SameStart(items: seq<string>, f: nat, g: nat)
    requires f < g < |items|
    ensures f < |RemoveAt(items, g)| && StartOf(RemoveAt(items, g), f) == StartOf(items, f)
    ensures FoundAt(RemoveAt(items, g), f) == Some(StartOf(items, f))
  {
    var left := RemoveAt(items, g);
    assert left[..f] == items[..f];
  }

  lemma FirstKeyedStays(items: seq<string>, key: string, f: nat, g: nat)
    requires f < g < |items| && f == FirstKeyed(items, key, 0)
    ensures FirstKeyed(RemoveAt(items, g), key, 0) == f
  {
    CutLater(items, f, g);
    FirstKeyedIs(items, key, 0);
    var left := RemoveAt(items, g);
    hide FirstKeyed;
    FirstKeyedAt(left, key, 0, f);
  }

  lemma {:induction false} FirstKeyedAt(items: seq<string>, key: string, k: nat, f: nat)
    requires k <= f < |items| && Occurs(key, items[f], 0) && forall i :: k <= i < f ==> !Occurs(key, items[i], 0)
    ensures FirstKeyed(items, key, k) == f
    decreases f - k
  {
    if k < f {
      FirstKeyedAt(items, key, k + 1, f);
    }
  }

  // ----- the merge loop

  lemma ItemText(items: seq<string>, k: nat)
    requires k < |items|
    ensures StartOf(items, k) + |items[k]| <= |Join(items)|
    ensures Join(items)[StartOf(items, k)..StartOf(items, k) + |items[k]|] == items[k]
  {
    ItemAt(items, k);
  }

  function ItemLength(text: string, at: nat): nat {
    if at <= |text| then FirstComma(text[at..]) else 0
  }

  /** The text at a found item's offsets is the item. */
  lemma FoundText(text: string, key: string, f: nat)
    requires IsKeyed(text, key, f)
    ensures var at := StartOf(Items(text), f); var end := at + ItemLength(text, at);
            end <= |text| && text[at..end] == Items(text)[f]
  {
    hide Join;
    hide Items;
    hide StartOf;
    hide FirstComma;
    hide Occurs;
    ItemText(Items(text), f);
  }

  /** The code's tests at offsets, as tests of items. */
  lemma KeyTests(text: string, key: string)
    requires CommaFree(key) && key != ""
    ensures var items := Items(text); var f := FirstKeyed(items, key, 0);
            match FindKey(text, key, 0)
            case None => f == |items|
            case Some(at) =>
              && f < |items| && at + ItemLength(text, at) <= |text|
              && text[at..at + ItemLength(text, at)] == items[f]
  {
    hide *;
    var f := FirstKeyed(Items(text), key, 0);
    FoundIs(text, key);
    FoundAtIs(Items(text), f);
    if f < |Items(text)| {
      FoundText(text, key, f);
    }
  }

  lemma FoundAtIs(items: seq<string>, f: nat)
    requires f <= |items|
    ensures FoundAt(items, f) == if f < |items| then Some(StartOf(items, f)) else None
  {
  }

  lemma KeyFree(item: string)
    requires ':' in item && CommaFree(item)
    ensures CommaFree(KeyOf(item)) && KeyOf(item) != ""
  {
  }

  /** Looks the key up: where its first item is, and whether that item is the given one. */
  method LookUp(text: string, key: string, item: string) returns (at: Option<nat>, same: bool)
    requires CommaFree(key) && key != ""
    ensures var items := Items(text); var f := FirstKeyed(items, key, 0);
            at == FindKey(text, key, 0) && (at.Some? <==> f < |items|) && (same <==> f < |items| && items[f] == item)
  {
    KeyTests(text, key);
    hide Items;
    hide FirstComma;
    hide FirstKeyed;
    hide FindKey;
    var found := FindKeyItem(text, key, 0);
    if found.None? {
      return None, false;
    }
    var (start, len) := found.value;
    return Some(start), text[start..start + len] == item;
  }

  lemma MergedOnKey(items: seq<string>, item: string, op: SetOp)
    requires ':' in item
    ensures var key := KeyOf(item); var f := FirstKeyed(items, key, 0); var merged := MergeKeyedItem(items, item, op);
            && (op == Remove ==> merged == DropKey(items, key))
            && (op != Remove && f == |items| ==> merged == InsertList(items, item, op))
            && (op != Remove && f < |items| && items[f] == item ==> merged == KeepFirst(items, key))
            && (op != Remove && f < |items| && items[f] != item ==> merged == InsertList(DropKey(items, key), item, op))
  {
  }

  method MergeOnKey(text: string, item: string, op: SetOp) returns (merged: string)
    requires CommaFree(item) && ':' in item
    ensures merged == Join(MergeKeyedItem(Items(text), item, op))
  {
    hide *;
    var key := KeyOf(item);
    ghost var items := Items(text);
    KeyFree(item);
    MergedOnKey(items, item, op);
    if op == Remove {
      merged := RemoveKeyItem(text, key, None);
      return;
    }
    var at, same := LookUp(text, key, item);
    if at.None? {
      InsertIs(items, item, op);
      merged := InsertItem(text, item, op);
    } else if same {
      merged := RemoveKeyItem(text, key, at);
    } else {
      InsertIs(DropKey(items, key), item, op);
      merged := RemoveKeyItem(text, key, None);
      merged := InsertItem(merged, item, op);
    }
  }

  method MergeOneItem(text: string, item: string, op: SetOp) returns (merged: string)
    requires CommaFree(item)
    ensures merged == MergeItem(text, item, op)
  {
    if ':' in item {
      merged := MergeOnKey(text, item, op);
    } else {
      var found := FindDupItem(text, item, true);
      if op == Remove && found.Some? {
        merged := RemoveCommaItem(text, found.value, |item|);
      } else if op == Remove || found.Some? {
        merged := text;
      } else {
        merged := InsertItem(text, item, op);
      }
    }
  }

  method MergeKeyItems(origval: string, newval: string, op: SetOp) returns (r: Option<string>)
    ensures r == MergeKeyed(origval, newval, op)
  {
    if ':' !in newval && ',' !in newval {
      return None;
    }
    hide MergeItem;
    hide Items;
    var merged := origval;
    var news := Items(newval);
    for i := 0 to |news|
      invariant merged == MergeEach(origval, news[..i], op)
    {
      assert news[..i + 1][..i] == news[..i];
      if news[i] != "" {
        merged := MergeOneItem(merged, news[i], op);
      }
    }
    assert news[..|news|] == news;
    return Some(merged);
  }

  // ----- the plain merge

  function ConcatWithComma(kind: ListKind, origval: string, newval: string, op: SetOp): string {
    var comma := CommaSeparated(kind) && origval != "" && newval != "";
    var n := |origval|;
    if op == Append then
      (if comma && n > 1 && NoEmptyItems(kind) && origval[n - 1] == ',' && origval[n - 2] != '\\' then origval[..n - 1]
       else origval) + (if comma then "," else "") + newval
    else newval + (if comma then "," else "") + origval
  }

  function RemoveValue(kind: ListKind, origval: string, at: nat, len: nat): string {
    if at >= |origval| then origval
    else
      var a := if CommaSeparated(kind) && at > 0 then at - 1 else at;
      var l := if CommaSeparated(kind) && (at > 0 || (len < |origval| && origval[len] == ',')) then len + 1 else len;
      origval[..a] + (if a + l <= |origval| then origval[a + l..] else "")
  }

  /** A flag that occurs again later is dropped; commas are not flags of a comma list. */
  function KeepLast(value: string, commas: bool): string {
    if value == "" then ""
    else if (!commas || value[0] != ',') && value[0] in value[1..] then KeepLast(value[1..], commas)
    else [value[0]] + KeepLast(value[1..], commas)
  }

  /** The same of a list of flags without empty items, where a flag goes with its comma. */
  function KeepLastPairs(value: string): string {
    if value == "" then ""
    else if value[0] != ',' && |value| > 1 && value[1] == ',' && value[0] in value[2..] then KeepLastPairs(value[2..])
    else [value[0]] + KeepLastPairs(value[1..])
  }

  /** What is left of a flag list, by the kind of its separators. */
  function Deduplicated(value: string, commas: bool, oneComma: bool): string {
    if oneComma then KeepLastPairs(value) else KeepLast(value, commas)
  }

  /** How many characters the loop drops at an offset. */
  function Dropping(bytes: string, index: nat, commas: bool, oneComma: bool): (n: nat)
    requires index < |bytes|
    ensures index + n <= |bytes|
  {
    if oneComma then
      if bytes[index] != ',' && index + 1 < |bytes| && bytes[index + 1] == ',' && bytes[index] in bytes[index + 2..]
      then 2
      else 0
    else if (!commas || bytes[index] != ',') && bytes[index] in bytes[index + 1..] then 1
    else 0
  }

  lemma KeepLastStep(bytes: string, index: nat, commas: bool, oneComma: bool)
    requires index < |bytes|
    ensures var n := Dropping(bytes, index, commas, oneComma);
            Deduplicated(bytes[index..], commas, oneComma)
            == if n > 0 then Deduplicated(bytes[index + n..], commas, oneComma)
               else [bytes[index]] + Deduplicated(bytes[index + 1..], commas, oneComma)
  {
    assert bytes[index..][1..] == bytes[index + 1..];
    assert index + 1 < |bytes| ==> bytes[index..][2..] == bytes[index + 2..];
  }

  lemma Shorter(bytes: string, index: nat, n: nat)
    requires index < |bytes| && index + n <= |bytes|
    ensures var s := bytes[..index] + bytes[index + n..];
            s[..index] == bytes[..index] && s[index..] == bytes[index + n..]
    ensures bytes[..index + 1] == bytes[..index] + [bytes[index]]
  {
  }

  lemma NothingLeft(commas: bool, oneComma: bool)
    ensures Deduplicated("", commas, oneComma) == ""
  {
  }

  /** One round of the loop. */
  lemma DropStep(bytes: string, index: nat, commas: bool, oneComma: bool)
    requires index < |bytes|
    ensures var n := Dropping(bytes, index, commas, oneComma);
            var s, i := bytes[..index] + bytes[index + n..], if n > 0 then index else index + 1;
            && i <= |s| && (n == 0 ==> s == bytes)
            && s[..i] + Deduplicated(s[i..], commas, oneComma)
               == bytes[..index] + Deduplicated(bytes[index..], commas, oneComma)
  {
    KeepLastStep(bytes, index, commas, oneComma);
    Shorter(bytes, index, Dropping(bytes, index, commas, oneComma));
    hide *;
    assert bytes[..index] + bytes[index..] == bytes;
  }

  method RemoveDupFlags(value: string, commas: bool, oneComma: bool) returns (bytes: string)
    ensures bytes == Deduplicated(value, commas, oneComma)
  {
    hide Deduplicated;
    bytes := value;
    var index := 0;
    assert bytes[0..] == bytes;
    while index < |bytes|
      invariant index <= |bytes|
      invariant bytes[..index] + Deduplicated(bytes[index..], commas, oneComma) == Deduplicated(value, commas, oneComma)
      decreases |bytes| - index
    {
      DropStep(bytes, index, commas, oneComma);
      if oneComma {
        if bytes[index] != ',' && index + 1 < |bytes| && bytes[index + 1] == ','
           && bytes[index] in bytes[index + 2..]
        {
          bytes := bytes[..index] + bytes[index + 2..];
          continue;
        }
      } else if (!commas || bytes[index] != ',') && bytes[index] in bytes[index + 1..] {
        bytes := bytes[..index] + bytes[index + 1..];
        continue;
      }
      index := index + 1;
    }
    NothingLeft(commas, oneComma);
    assert bytes[..index] == bytes && bytes[index..] == "";
  }

  function Finish(kind: ListKind, value: string): string {
    if FlagList(kind) then KeepLast(value, CommaSeparated(kind)) else value
  }

  /** What a merge makes of an option's value. */
  function Merge(kind: ListKind, nodup: bool, origval: string, newval: string, op: SetOp): string {
    var keyed := if Keyed(kind) then MergeKeyed(origval, newval, op) else None;
    if keyed.Some? then Finish(kind, keyed.value)
    else
      var found := if op == Remove || nodup then FindDup(origval, newval, CommaSeparated(kind), 0, 0) else None;
      if op == Remove then
        Finish(kind, RemoveValue(kind, origval, if found.Some? then found.value else |origval|, |newval|))
      else if found.Some? then Finish(kind, origval)
      else Finish(kind, ConcatWithComma(kind, origval, newval, op))
  }

  method MergeString(kind: ListKind, nodup: bool, origval: string, newval: string, op: SetOp) returns (merged: string)
    ensures merged == Merge(kind, nodup, origval, newval, op)
  {
    if Keyed(kind) {
      var keyed := MergeKeyItems(origval, newval, op);
      if keyed.Some? {
        return keyed.value;
      }
    }
    var removal := |origval|;
    if op == Remove || nodup {
      var found := FindDupItem(origval, newval, CommaSeparated(kind));
      if found.Some? {
        if op != Remove {
          merged := origval;
          if FlagList(kind) {
            merged := RemoveDupFlags(merged, CommaSeparated(kind), NoEmptyItems(kind));
          }
          return;
        }
        removal := found.value;
      }
    }
    merged := if op == Remove then RemoveValue(kind, origval, removal, |newval|)
      else ConcatWithComma(kind, origval, newval, op);
    if FlagList(kind) {
      merged := RemoveDupFlags(merged, CommaSeparated(kind), NoEmptyItems(kind));
    }
  }
}
