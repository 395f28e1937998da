/** The structured form of a list option's text, and back. */
module OptionForms {
  import opened Wrappers
  import opened CommaItems
  import opened OptionMerge
  import opened Typvals
  import AutocmdPatterns

  // ----- from the text to its structured form

  function FlagEntries(text: string): seq<(string, Object)> {
    seq(|text|, i requires 0 <= i < |text| => ([text[i]], Boolean(true)))
  }

  function KeyEntry(item: string): (string, Object) {
    if ':' in item then (item[..FirstColon(item)], String(item[FirstColon(item) + 1..])) else (item, Boolean(true))
  }

  function Structured(kind: ListKind, text: string): Object {
    var items := TextItems(text);
    match kind
    case Plain => String(text)
    case Flags => Dict(FlagEntries(text))
    case FlagsComma => Dict(seq(|items|, i requires 0 <= i < |items| => (items[i], Boolean(true))))
    case Comma => Array(seq(|items|, i requires 0 <= i < |items| => String(items[i])))
    case OneComma => Array(seq(|items|, i requires 0 <= i < |items| => String(items[i])))
    case CommaColon => Dict(seq(|items|, i requires 0 <= i < |items| => KeyEntry(items[i])))
    case OneCommaColon => Dict(seq(|items|, i requires 0 <= i < |items| => KeyEntry(items[i])))
  }

  // ----- and back

  /** Byte order of strings. */
  predicate AtMost(a: string, b: string) {
    a == "" || (b != "" && (a[0] < b[0] || (a[0] == b[0] && AtMost(a[1..], b[1..]))))
  }

  function Insert(x: string, sorted: seq<string>): seq<string> {
    if sorted == [] || AtMost(x, sorted[0]) then [x] + sorted else [sorted[0]] + Insert(x, sorted[1..])
  }

  function Sort(parts: seq<string>): seq<string> {
    if parts == [] then [] else Insert(parts[0], Sort(parts[1..]))
  }

  /** Each string where it first occurs. */
  function Firsts(parts: seq<string>): seq<string> {
    if parts == [] then []
    else
      var firsts, x := Firsts(parts[..|parts| - 1]), parts[|parts| - 1];
      if x in firsts then firsts else firsts + [x]
  }

  function Unrepeated(parts: seq<string>, denyDuplicates: bool): seq<string> {
    if denyDuplicates then Firsts(parts) else parts
  }

  function Strings(values: seq<Object>): Option<seq<string>> {
    if values == [] then Some([])
    else if !values[|values| - 1].String? then None
    else match Strings(values[..|values| - 1]) case None => None case Some(ss) => Some(ss + [values[|values| - 1].s])
  }

  method ArrayToParts(values: seq<Object>, denyDuplicates: bool) returns (r: Option<seq<string>>)
    ensures r == match Strings(values) case None => None case Some(ss) => Some(Unrepeated(ss, denyDuplicates))
  {
    var parts := [];
    for i := 0 to |values|
      invariant Strings(values[..i]).Some? && parts == Unrepeated(Strings(values[..i]).value, denyDuplicates)
    {
      assert values[..i + 1][..i] == values[..i];
      if !values[i].String? {
        StringsStop(values, i);
        return None;
      }
      var text := values[i].s;
      ghost var before := Strings(values[..i]).value;
      assert (before + [text])[..|before|] == before;
      if denyDuplicates && text in parts {
        continue;
      }
      parts := parts + [text];
    }
    assert values[..|values|] == values;
    return Some(parts);
  }

  lemma {:induction false} StringsStop(values: seq<Object>, i: nat)
    requires i < |values| && !values[i].String?
    ensures Strings(values) == None
  {
    if i < |values| - 1 {
      StringsStop(values[..|values| - 1], i);
    }
  }

  predicate Truthy(value: Object) {
    value != Nil && value != Boolean(false)
  }

  /** The part one dictionary entry contributes, if any; colon maps refuse other values. */
  function Part(kind: ListKind, key: string, value: Object): Result<seq<string>, ()> {
    if FlagList(kind) then Ok(if Truthy(value) then [key] else [])
    else match value
      case String(s) => Ok([key + ":" + s])
      case Integer(n) => Ok([key + ":" + Signed(n)])
      case Boolean(b) => Ok(if b then [key] else [])
      case Nil => Ok([key])
      case _ => Err(())
  }

  function Signed(n: int): string {
    if n < 0 then "-" + AutocmdPatterns.Decimal(-n) else AutocmdPatterns.Decimal(n)
  }

  function DictParts(kind: ListKind, entries: seq<(string, Object)>): Result<seq<string>, ()> {
    if entries == [] then Ok([])
    else match DictParts(kind, entries[..|entries| - 1])
      case Err(_) => Err(())
      case Ok(parts) => match Part(kind, entries[|entries| - 1].0, entries[|entries| - 1].1)
        case Err(_) => Err(())
        case Ok(part) => Ok(parts + part)
  }

  function Concat(parts: seq<string>): string {
    if parts == [] then "" else parts[0] + Concat(parts[1..])
  }

  /** The text of an object for a string option; the error stands for the type error. */
  function ToText(kind: ListKind, denyDuplicates: bool, value: Object): Result<string, ()> {
    match value
    case String(s) => Ok(s)
    case Array(values) =>
      if kind.Plain? then Err(())
      else (match Strings(values) case None => Err(()) case Some(ss) => Ok(Join(Unrepeated(ss, denyDuplicates))))
    case Dict(entries) =>
      if kind.Plain? || kind.Comma? || kind.OneComma? then Err(())
      else (match DictParts(kind, entries)
            case Err(_) => Err(())
            case Ok(parts) => Ok(if kind.Flags? then Concat(parts) else Join(Sort(parts))))
    case _ => Err(())
  }

  method DictToOptionString(kind: ListKind, entries: seq<(string, Object)>) returns (r: Result<string, ()>)
    ensures r == ToText(kind, false, Dict(entries)) == ToText(kind, true, Dict(entries))
  {
    if !FlagList(kind) && !Keyed(kind) {
      return Err(());
    }
    var parts := [];
    for i := 0 to |entries|
      invariant DictParts(kind, entries[..i]) == Ok(parts)
    {
      assert entries[..i + 1][..i] == entries[..i];
      var part := Part(kind, entries[i].0, entries[i].1);
      if part.Err? {
        PartsStop(kind, entries, i);
        return Err(());
      }
      parts := parts + part.value;
    }
    assert entries[..|entries|] == entries;
    if !kind.Flags? {
      parts := Sort(parts);
      return Ok(Join(parts));
    }
    return Ok(Concat(parts));
  }

  lemma {:induction false} PartsStop(kind: ListKind, entries: seq<(string, Object)>, i: nat)
    requires i < |entries| && Part(kind, entries[i].0, entries[i].1).Err?
    ensures DictParts(kind, entries) == Err(())
  {
    if i < |entries| - 1 {
      PartsStop(kind, entries[..|entries| - 1], i);
    }
  }

  // ----- the round trip

  /** The normal form of a text. */
  function NormalText(kind: ListKind, denyDuplicates: bool, text: string): string {
    match kind
    case Plain => text
    case Flags => text
    case Comma => Join(Unrepeated(TextItems(text), denyDuplicates))
    case OneComma => Join(Unrepeated(TextItems(text), denyDuplicates))
    case _ => Join(Sort(TextItems(text)))
  }

  lemma {:induction false} StringsOf(items: seq<string>)
    ensures Strings(seq(|items|, i requires 0 <= i < |items| => String(items[i]))) == Some(items)
  {
    if items != [] {
      var n := |items| - 1;
      var values := seq(|items|, i requires 0 <= i < |items| => String(items[i]));
      StringsOf(items[..n]);
      assert values[..n] == seq(n, i requires 0 <= i < n => String(items[..n][i]));
      assert items == items[..n] + [items[n]];
    }
  }

  lemma {:induction false} FlagParts(kind: ListKind, items: seq<string>)
    requires FlagList(kind)
    ensures DictParts(kind, seq(|items|, i requires 0 <= i < |items| => (items[i], Boolean(true)))) == Ok(items)
  {
    if items != [] {
      var n := |items| - 1;
      var entries := seq(|items|, i requires 0 <= i < |items| => (items[i], Boolean(true)));
      FlagParts(kind, items[..n]);
      assert entries[..n] == seq(n, i requires 0 <= i < n => (items[..n][i], Boolean(true)));
      assert items == items[..n] + [items[n]];
    }
  }

  lemma KeyEntryBack(kind: ListKind, item: string)
    requires Keyed(kind)
    ensures Part(kind, KeyEntry(item).0, KeyEntry(item).1) == Ok([item])
  {
    if ':' in item {
      var n := FirstColon(item);
      assert item[..n] + ":" + item[n + 1..] == item;
    }
  }

  lemma {:induction false} KeyParts(kind: ListKind, items: seq<string>)
    requires Keyed(kind)
    ensures DictParts(kind, seq(|items|, i requires 0 <= i < |items| => KeyEntry(items[i]))) == Ok(items)
  {
    if items != [] {
      var n := |items| - 1;
      var entries := seq(|items|, i requires 0 <= i < |items| => KeyEntry(items[i]));
      KeyParts(kind, items[..n]);
      KeyEntryBack(kind, items[n]);
      assert entries[..n] == seq(n, i requires 0 <= i < n => KeyEntry(items[..n][i]));
      assert items == items[..n] + [items[n]];
    }
  }

  lemma {:induction false} ConcatFlags(text: string)
    ensures Concat(seq(|text|, i requires 0 <= i < |text| => [text[i]])) == text
  {
    if text != "" {
      var parts: seq<string> := seq(|text|, i requires 0 <= i < |text| => [text[i]]);
      ConcatFlags(text[1..]);
      assert parts[1..] == seq(|text| - 1, i requires 0 <= i < |text| - 1 => [text[1..][i]]);
      assert text == [text[0]] + text[1..];
    }
  }

  lemma FlagsRoundTrip(denyDuplicates: bool, text: string)
    ensures ToText(Flags, denyDuplicates, Structured(Flags, text)) == Ok(text)
  {
    var chars: seq<string> := seq(|text|, i requires 0 <= i < |text| => [text[i]]);
    FlagParts(Flags, chars);
    assert FlagEntries(text) == seq(|chars|, i requires 0 <= i < |chars| => (chars[i], Boolean(true)));
    ConcatFlags(text);
    hide DictParts;
    hide Concat;
  }

  lemma DictRoundTrip(kind: ListKind, denyDuplicates: bool, text: string)
    requires kind.FlagsComma? || Keyed(kind)
    ensures ToText(kind, denyDuplicates, Structured(kind, text)) == Ok(Join(Sort(TextItems(text))))
  {
    if kind.FlagsComma? {
      FlagParts(kind, TextItems(text));
    } else {
      KeyParts(kind, TextItems(text));
    }
    hide DictParts;
    hide TextItems;
    hide Join;
    hide Sort;
  }

  lemma ArrayRoundTrip(kind: ListKind, denyDuplicates: bool, text: string)
    requires kind.Comma? || kind.OneComma?
    ensures ToText(kind, denyDuplicates, Structured(kind, text))
            == Ok(Join(Unrepeated(TextItems(text), denyDuplicates)))
  {
    StringsOf(TextItems(text));
    hide Strings;
    hide TextItems;
    hide Join;
    hide Unrepeated;
  }

  /** Reading the structured form of a text gives its normal form. */
  lemma StructuredRoundTrip(kind: ListKind, denyDuplicates: bool, text: string)
    ensures ToText(kind, denyDuplicates, Structured(kind, text)) == Ok(NormalText(kind, denyDuplicates, text))
  {
    if kind.Flags? {
      FlagsRoundTrip(denyDuplicates, text);
    } else if kind.Comma? || kind.OneComma? {
      ArrayRoundTrip(kind, denyDuplicates, text);
    } else if !kind.Plain? {
      DictRoundTrip(kind, denyDuplicates, text);
    }
    hide DictParts;
    hide Strings;
    hide Unrepeated;
    hide TextItems;
    hide Concat;
    hide Join;
    hide Sort;
  }

  // ----- normal forms are stable

  predicate NoneEmpty(items: seq<string>) {
    forall i :: 0 <= i < |items| ==> items[i] != "" && CommaFree(items[i])
  }

  lemma {:induction false} ItemsSurvive(items: seq<string>)
    requires NoneEmpty(items)
    ensures TextItems(Join(items)) == items
  {
    if items == [] {
      assert Join([""]) == "" == Join(items);
      JoinItems([""]);
      assert Items(Join(items)) == [""];
      assert Filter([""], NonEmpty()) == [];
    } else {
      JoinItems(items);
      FilterAll(items, NonEmpty());
    }
  }

  lemma {:induction false} FilterClean(items: seq<string>)
    requires AllCommaFree(items)
    ensures NoneEmpty(Filter(items, NonEmpty()))
  {
    if items != [] {
      assert AllCommaFree(items[1..]);
      FilterClean(items[1..]);
    }
  }

  lemma {:induction false} FirstsClean(items: seq<string>)
    requires NoneEmpty(items)
    ensures NoneEmpty(Firsts(items))
  {
    if items != [] {
      assert NoneEmpty(items[..|items| - 1]);
      FirstsClean(items[..|items| - 1]);
    }
  }

  lemma {:induction false} InsertClean(x: string, items: seq<string>)
    requires NoneEmpty(items) && x != "" && CommaFree(x)
    ensures NoneEmpty(Insert(x, items))
  {
    if items != [] && !AtMost(x, items[0]) {
      assert NoneEmpty(items[1..]);
      InsertClean(x, items[1..]);
    }
  }

  lemma {:induction false} SortClean(items: seq<string>)
    requires NoneEmpty(items)
    ensures NoneEmpty(Sort(items))
  {
    if items != [] {
      assert NoneEmpty(items[1..]);
      SortClean(items[1..]);
      InsertClean(items[0], Sort(items[1..]));
    }
  }

  predicate Distinct(items: seq<string>) {
    forall i, j :: 0 <= i < j < |items| ==> items[i] != items[j]
  }

  /** First occurrences are distinct and the same strings. */
  lemma {:induction false} FirstsDistinct(items: seq<string>)
    ensures Distinct(Firsts(items)) && forall x :: x in Firsts(items) <==> x in items
  {
    if items != [] {
      var n := |items| - 1;
      FirstsDistinct(items[..n]);
      assert items == items[..n] + [items[n]];
    }
  }

  lemma {:induction false} FirstsSame(items: seq<string>)
    requires Distinct(items)
    ensures Firsts(items) == items
  {
    if items != [] {
      var n := |items| - 1;
      assert Distinct(items[..n]);
      FirstsSame(items[..n]);
      assert forall i :: 0 <= i < n ==> items[i] != items[n];
      assert items == items[..n] + [items[n]];
    }
  }

  predicate Sorted(items: seq<string>) {
    forall i, j :: 0 <= i < j < |items| ==> AtMost(items[i], items[j])
  }

  lemma {:induction false} AtMostTrans(a: string, b: string, c: string)
    requires AtMost(a, b) && AtMost(b, c)
    ensures AtMost(a, c)
  {
    if a != "" && a[0] == b[0] && b[0] == c[0] {
      AtMostTrans(a[1..], b[1..], c[1..]);
    }
  }

  lemma {:induction false} AtMostTotal(a: string, b: string)
    ensures AtMost(a, b) || AtMost(b, a)
  {
    if a != "" && b != "" && a[0] == b[0] {
      AtMostTotal(a[1..], b[1..]);
    }
  }

  lemma {:induction false} InsertSorted(x: string, items: seq<string>)
    requires Sorted(items)
    ensures Sorted(Insert(x, items)) && multiset(Insert(x, items)) == multiset{x} + multiset(items)
  {
    if items == [] {
    } else if AtMost(x, items[0]) {
      forall j | 0 <= j < |items|
        ensures AtMost(x, items[j])
      {
        if j > 0 {
          AtMostTrans(x, items[0], items[j]);
        }
      }
    } else {
      AtMostTotal(x, items[0]);
      assert Sorted(items[1..]);
      InsertSorted(x, items[1..]);
      var rest := Insert(x, items[1..]);
      assert items == [items[0]] + items[1..];
      forall j | 0 <= j < |rest|
        ensures AtMost(items[0], rest[j])
      {
        assert rest[j] in multiset(rest);
        if rest[j] != x {
          assert rest[j] in items[1..];
        }
      }
    }
  }

  /** Sorting gives the same strings, with their multiplicities, in byte order. */
  lemma {:induction false} SortSorts(items: seq<string>)
    ensures Sorted(Sort(items)) && multiset(Sort(items)) == multiset(items)
  {
    if items != [] {
      SortSorts(items[1..]);
      InsertSorted(items[0], Sort(items[1..]));
      assert items == [items[0]] + items[1..];
    }
  }

  lemma {:induction false} SortedStays(items: seq<string>)
    requires Sorted(items)
    ensures Sort(items) == items
  {
    if items != [] {
      assert Sorted(items[1..]);
      SortedStays(items[1..]);
      if |items| > 1 {
        assert AtMost(items[0], items[1]);
      }
    }
  }

  /** The items of the normal form: the non-empty items in order, first occurrences only
      under `denyDuplicates`, or sorted. */
  lemma NormalItems(kind: ListKind, denyDuplicates: bool, text: string)
    requires CommaSeparated(kind)
    ensures TextItems(NormalText(kind, denyDuplicates, text))
         == if kind.Comma? || kind.OneComma? then Unrepeated(TextItems(text), denyDuplicates) else Sort(TextItems(text))
  {
    var items := TextItems(text);
    FilterClean(Items(text));
    FirstsClean(items);
    SortClean(items);
    ItemsSurvive(if kind.Comma? || kind.OneComma? then Unrepeated(items, denyDuplicates) else Sort(items));
    hide TextItems;
    hide Firsts;
    hide Sort;
    hide Join;
  }

  lemma NormalIsStable(kind: ListKind, denyDuplicates: bool, text: string)
    ensures var normal := NormalText(kind, denyDuplicates, text); NormalText(kind, denyDuplicates, normal) == normal
  {
    if CommaSeparated(kind) {
      var items := TextItems(text);
      NormalItems(kind, denyDuplicates, text);
      FirstsDistinct(items);
      FirstsSame(Firsts(items));
      SortSorts(items);
      SortedStays(Sort(items));
      hide TextItems;
      hide Firsts;
      hide Sort;
      hide Join;
    }
  }

  // ----- dictionaries of any values

  /** What an entry of a dictionary adds to an option's text: in a flag list its key, unless the
      value is false or nil; in a colon map the key with a string or a number, the key alone for
      true and nil, and nothing for false. Other values fit no colon map. */
  predicate Contributes(kind: ListKind, key: string, value: Object, part: Option<string>) {
    if FlagList(kind) then part == if value.Nil? || (value.Boolean? && !value.b) then None else Some(key)
    else
      && (value.String? ==> part == Some(key + ":" + value.s))
      && (value.Integer? ==> part.Some? && key + ":" <= part.value && Spells(part.value[|key| + 1..], value.n))
      && (value.Boolean? && value.b ==> part == Some(key))
      && (value.Boolean? && !value.b ==> part == None)
      && (value.Nil? ==> part == Some(key))
  }

  /** The decimal digits of a number, a minus before them if it is negative. */
  predicate Spells(s: string, n: int) {
    var digits := if n < 0 && s != "" && s[0] == '-' then s[1..] else s;
    && digits != "" && (forall i :: 0 <= i < |digits| ==> '0' <= digits[i] <= '9')
    && (n < 0 ==> s[0] == '-') && AutocmdPatterns.DigitsValue(digits) == if n < 0 then -n else n
  }

  predicate Admits(kind: ListKind, value: Object) {
    FlagList(kind) || value.String? || value.Integer? || value.Boolean? || value.Nil?
  }

  function Given(parts: seq<Option<string>>): seq<string> {
    if parts == [] then []
    else
      var n := |parts| - 1; Given(parts[..n]) + if parts[n].Some? then [parts[n].value] else []
  }

  lemma SignedSpells(n: int)
    ensures Spells(Signed(n), n)
  {
    var m: nat := if n < 0 then -n else n;
    AutocmdPatterns.DecimalReadsBack(m);
    var digits := AutocmdPatterns.Decimal(m);
    assert forall i :: 0 <= i < |digits| ==> AutocmdPatterns.Digit(digits[i]);
    assert ("-" + digits)[1..] == digits;
  }

  function AsOption(parts: seq<string>): Option<string> {
    if parts == [] then None else Some(parts[0])
  }

  lemma NumberContributes(kind: ListKind, key: string, n: int)
    requires Keyed(kind)
    ensures Contributes(kind, key, Integer(n), Some(key + ":" + Signed(n)))
  {
    var part := key + ":" + Signed(n);
    SignedSpells(n);
    assert part[|key| + 1..] == Signed(n) && part[..|key| + 1] == key + ":";
    hide Spells;
    hide Signed;
  }

  lemma PartContributes(kind: ListKind, key: string, value: Object)
    requires FlagList(kind) || Keyed(kind)
    ensures var part := Part(kind, key, value);
            && (part.Ok? <==> Admits(kind, value))
            && (part.Ok? ==> |part.value| <= 1 && Contributes(kind, key, value, AsOption(part.value)))
  {
    if value.Integer? && Keyed(kind) {
      NumberContributes(kind, key, value.n);
    }
    hide Spells;
    hide Signed;
  }

  lemma DictPartsNext(kind: ListKind, entries: seq<(string, Object)>)
    requires entries != []
    ensures var n := |entries| - 1;
            var before, part := DictParts(kind, entries[..n]), Part(kind, entries[n].0, entries[n].1);
            DictParts(kind, entries)
            == if before.Ok? && part.Ok? then Ok(before.value + part.value) else Err(())
  {
    hide Part;
  }

  lemma GivenMore(parts: seq<Option<string>>, part: seq<string>)
    requires |part| <= 1
    ensures Given(parts + [AsOption(part)]) == Given(parts) + part
  {
    assert (parts + [AsOption(part)])[..|parts|] == parts;
  }

  /** The parts of a dictionary are what its entries add, in order. */
  lemma {:induction false} PartsContribute(kind: ListKind, entries: seq<(string, Object)>)
      returns (parts: seq<Option<string>>)
    requires FlagList(kind) || Keyed(kind)
    ensures DictParts(kind, entries).Ok? <==> forall i :: 0 <= i < |entries| ==> Admits(kind, entries[i].1)
    ensures DictParts(kind, entries).Ok? ==>
              && |parts| == |entries| && DictParts(kind, entries).value == Given(parts)
              && forall i :: 0 <= i < |entries| ==> Contributes(kind, entries[i].0, entries[i].1, parts[i])
  {
    parts := [];
    if entries != [] {
      var n := |entries| - 1;
      parts := PartsContribute(kind, entries[..n]);
      PartContributes(kind, entries[n].0, entries[n].1);
      DictPartsNext(kind, entries);
      hide *;
      var part := Part(kind, entries[n].0, entries[n].1);
      if DictParts(kind, entries).Ok? {
        GivenMore(parts, part.value);
        parts := parts + [AsOption(part.value)];
      }
    }
  }

  /** The text of a dictionary: what its entries add, in their order for flags and in byte order
      otherwise; and an error exactly for an option that is neither, or a value that fits none. */
  lemma DictTextExact(kind: ListKind, denyDuplicates: bool, entries: seq<(string, Object)>)
      returns (parts: seq<Option<string>>)
    ensures ToText(kind, denyDuplicates, Dict(entries)).Err? <==>
              || !(FlagList(kind) || Keyed(kind))
              || exists i :: 0 <= i < |entries| && !Admits(kind, entries[i].1)
    ensures ToText(kind, denyDuplicates, Dict(entries)).Ok? ==>
              && |parts| == |entries|
              && (forall i :: 0 <= i < |entries| ==> Contributes(kind, entries[i].0, entries[i].1, parts[i]))
              && ToText(kind, denyDuplicates, Dict(entries)).value
                 == if kind.Flags? then Concat(Given(parts)) else Join(Sort(Given(parts)))
  {
    parts := [];
    if FlagList(kind) || Keyed(kind) {
      parts := PartsContribute(kind, entries);
    }
    hide DictParts;
    hide Contributes;
    hide Admits;
  }

  // ----- arrays of any values

  /** The list `firsts` is the parts at the positions in `at`, which are those of first
      occurrences. */
  predicate PicksFirsts(parts: seq<string>, at: seq<nat>, firsts: seq<string>) {
    && |at| == |firsts|
    && (forall i :: 0 <= i < |at| ==> at[i] < |parts| && parts[at[i]] == firsts[i])
    && (forall i, j :: 0 <= i < j < |at| ==> at[i] < at[j])
    && (forall k :: 0 <= k < |parts| ==> (k in at <==> parts[k] !in parts[..k]))
  }

  lemma PicksNext(parts: seq<string>, x: string, at: seq<nat>, firsts: seq<string>)
    requires PicksFirsts(parts, at, firsts)
    ensures x in parts ==> PicksFirsts(parts + [x], at, firsts)
    ensures x !in parts ==> PicksFirsts(parts + [x], at + [|parts|], firsts + [x])
  {
    var all := parts + [x];
    assert all[..|parts|] == parts && forall k :: 0 <= k < |parts| ==> all[..k] == parts[..k] && all[k] == parts[k];
  }

  lemma FirstsNext(parts: seq<string>, x: string)
    ensures Firsts(parts + [x]) == if x in Firsts(parts) then Firsts(parts) else Firsts(parts) + [x]
  {
    assert (parts + [x])[..|parts|] == parts;
  }

  lemma {:induction false} FirstsPick(parts: seq<string>) returns (at: seq<nat>)
    ensures PicksFirsts(parts, at, Firsts(parts))
    ensures forall x :: x in Firsts(parts) <==> x in parts
  {
    if parts == [] {
      return [];
    }
    var before, x := parts[..|parts| - 1], parts[|parts| - 1];
    assert parts == before + [x];
    at := FirstsPick(before);
    hide *;
    PicksNext(before, x, at, Firsts(before));
    FirstsNext(before, x);
    at := if x in before then at else at + [|before|];
  }

  lemma {:induction false} StringsExact(values: seq<Object>)
    ensures Strings(values).Some? <==> forall i :: 0 <= i < |values| ==> values[i].String?
    ensures Strings(values).Some? ==>
              && |Strings(values).value| == |values|
              && forall i :: 0 <= i < |values| ==> values[i] == String(Strings(values).value[i])
  {
    if values != [] {
      var n := |values| - 1;
      StringsExact(values[..n]);
      assert values == values[..n] + [values[n]];
    }
  }

  /** The text of an array: its strings in order, each where it first occurs if duplicates are
      denied; and an error exactly for an option that is no list, or an item that is no string. */
  lemma ArrayTextExact(kind: ListKind, denyDuplicates: bool, values: seq<Object>)
      returns (parts: seq<string>, at: seq<nat>, kept: seq<string>)
    ensures ToText(kind, denyDuplicates, Array(values)).Err?
       <==> kind == Plain || exists i :: 0 <= i < |values| && !values[i].String?
    ensures ToText(kind, denyDuplicates, Array(values)).Ok? ==>
              && |parts| == |values| && (forall i :: 0 <= i < |values| ==> values[i] == String(parts[i]))
              && (denyDuplicates ==> PicksFirsts(parts, at, kept)) && (!denyDuplicates ==> kept == parts)
              && ToText(kind, denyDuplicates, Array(values)).value == Join(kept)
  {
    StringsExact(values);
    parts, at, kept := [], [], [];
    if Strings(values).Some? {
      parts := Strings(values).value;
      at := FirstsPick(parts);
      kept := if denyDuplicates then Firsts(parts) else parts;
    }
    hide Strings;
    hide Firsts;
    hide PicksFirsts;
  }

  /** An item with a colon is taken apart at its first one. */
  lemma KeyEntryExact(key: string, value: string)
    requires ':' !in key
    ensures KeyEntry(key + ":" + value) == (key, String(value)) && KeyEntry(key) == (key, Boolean(true))
  {
    var item := key + ":" + value;
    assert item[|key|] == ':' && item[|key| + 1..] == value && item[..|key|] == key;
    FirstColonIs(item, |key|);
  }

  lemma {:induction false} FirstColonIs(item: string, n: nat)
    requires n < |item| && item[n] == ':' && forall i :: 0 <= i < n ==> item[i] != ':'
    ensures ':' in item && FirstColon(item) == n
  {
    if n > 0 {
      FirstColonIs(item[1..], n - 1);
    }
  }
}
