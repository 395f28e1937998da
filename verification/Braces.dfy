/** Comma splitting and brace expansion of autocommand patterns, with the nested
    brace grammar they implement. */
module Braces {
  import opened Wrappers

  datatype SplitError = UnbalancedBraces

  // ----- split_pattern_list

  /** What the splitting loop returns from a given state: the parts already closed are
      prepended by the caller. */
  function SplitFrom(rest: string, current: string, depth: nat, escaped: bool): Result<seq<string>, SplitError> {
    if rest == [] then
      if depth != 0 then Err(UnbalancedBraces)
      else Ok([if escaped then current + ['\\'] else current])
    else
      var ch, tail := rest[0], rest[1..];
      if escaped then SplitFrom(tail, current + [ch], depth, false)
      else if ch == '\\' then SplitFrom(tail, current + [ch], depth, true)
      else if ch == '{' then SplitFrom(tail, current + [ch], depth + 1, false)
      else if ch == '}' then
        if depth == 0 then Err(UnbalancedBraces) else SplitFrom(tail, current + [ch], depth - 1, false)
      else if ch == ',' && depth == 0 then Prepend(current, SplitFrom(tail, [], 0, false))
      else SplitFrom(tail, current + [ch], depth, false)
  }

  function Prepend(part: string, parts: Result<seq<string>, SplitError>): Result<seq<string>, SplitError> {
    match parts case Ok(ps) => Ok([part] + ps) case Err(e) => Err(e)
  }

  function After(done: seq<string>, parts: Result<seq<string>, SplitError>): Result<seq<string>, SplitError> {
    match parts case Ok(ps) => Ok(done + ps) case Err(e) => Err(e)
  }

  function Split(patterns: string): Result<seq<string>, SplitError> {
    SplitFrom(patterns, [], 0, false)
  }

  method SplitPatternList(patterns: string) returns (r: Result<seq<string>, SplitError>)
    ensures r == Split(patterns)
  {
    var result: seq<string>, current: string, depth: nat, escaped := [], [], 0, false;
    assert patterns[0..] == patterns;
    assert Split(patterns).Ok? ==> [] + Split(patterns).value == Split(patterns).value;
    for i := 0 to |patterns|
      invariant After(result, SplitFrom(patterns[i..], current, depth, escaped)) == Split(patterns)
    {
      var ch := patterns[i];
      ghost var tail := patterns[i + 1..];
      assert patterns[i..][1..] == tail;
      if escaped {
        current, escaped := current + [ch], false;
      } else if ch == '\\' {
        current, escaped := current + [ch], true;
      } else if ch == '{' {
        current, depth := current + [ch], depth + 1;
      } else if ch == '}' {
        if depth == 0 {
          return Err(UnbalancedBraces);
        }
        current, depth := current + [ch], depth - 1;
      } else if ch == ',' && depth == 0 {
        ghost var rest := SplitFrom(tail, [], 0, false);
        assert rest.Ok? ==> result + ([current] + rest.value) == result + [current] + rest.value;
        result, current := result + [current], [];
      } else {
        current := current + [ch];
      }
    }
    if escaped {
      current := current + ['\\'];
    }
    if depth != 0 {
      return Err(UnbalancedBraces);
    }
    return Ok(result + [current]);
  }

  // ----- expand_braces

  function Opens(s: string): nat {
    if s == [] then 0 else (if s[0] == '{' then 1 else 0) + Opens(s[1..])
  }

  lemma {:induction false} OpensConcat(a: string, b: string)
    ensures Opens(a + b) == Opens(a) + Opens(b)
  {
    if a == [] {
      assert a + b == b;
    } else {
      assert (a + b)[1..] == a[1..] + b;
      OpensConcat(a[1..], b);
    }
  }

  lemma OpensSplit(s: string, i: nat)
    requires i <= |s|
    ensures Opens(s) == Opens(s[..i]) + Opens(s[i..])
  {
    assert s[..i] + s[i..] == s;
    OpensConcat(s[..i], s[i..]);
  }

  /** A part never holds more opening braces than the text it was split from. */
  lemma {:induction false} SplitKeepsOpens(rest: string, current: string, depth: nat, escaped: bool)
    requires SplitFrom(rest, current, depth, escaped).Ok?
    ensures forall part :: part in SplitFrom(rest, current, depth, escaped).value
                       ==> Opens(part) <= Opens(current) + Opens(rest)
    decreases |rest|
  {
    OpensConcat(current, ['\\']);
    if rest != [] {
      var ch, tail := rest[0], rest[1..];
      OpensConcat(current, [ch]);
      if escaped {
        SplitKeepsOpens(tail, current + [ch], depth, false);
      } else if ch == '\\' {
        SplitKeepsOpens(tail, current + [ch], depth, true);
      } else if ch == '{' {
        SplitKeepsOpens(tail, current + [ch], depth + 1, false);
      } else if ch == '}' {
        SplitKeepsOpens(tail, current + [ch], depth - 1, false);
      } else if ch == ',' && depth == 0 {
        SplitKeepsOpens(tail, [], 0, false);
      } else {
        SplitKeepsOpens(tail, current + [ch], depth, false);
      }
    }
  }

  function FirstOpen(s: string): (i: nat)
    ensures i <= |s| && '{' !in s[..i] && (i < |s| ==> s[i] == '{')
  {
    if s == [] || s[0] == '{' then 0
    else
      var i := 1 + FirstOpen(s[1..]);
      assert s[..i] == [s[0]] + s[1..][..i - 1];
      i
  }

  /** Where the scan from inside `depth` open braces closes the last of them, counting
      every brace, escaped or not. */
  function Close(s: string, depth: nat): (r: Option<nat>)
    ensures r.Some? ==> r.value < |s|
  {
    if s == [] then None
    else if s[0] == '{' then Shift(Close(s[1..], depth + 1))
    else if s[0] == '}' && depth == 1 then Some(0)
    else if s[0] == '}' && depth == 0 then None
    else if s[0] == '}' then Shift(Close(s[1..], depth - 1))
    else Shift(Close(s[1..], depth))
  }

  function Shift(r: Option<nat>): Option<nat> {
    match r case Some(k) => Some(k + 1) case None => None
  }

  /** A pattern as the expander sees it: nothing to expand, no closing brace for its first
      opening one, or the text before, inside and after its first group. */
  datatype Pieces = Plain | Unclosed | Cut(prefix: string, middle: string, suffix: string)

  function PiecesOf(pattern: string): (r: Pieces)
    ensures r.Cut? ==> Opens(r.prefix) + Opens(r.middle) + Opens(r.suffix) < Opens(pattern)
  {
    var start := FirstOpen(pattern);
    if start == |pattern| then Plain
    else
      match Close(pattern[start..], 0)
      case None => Unclosed
      case Some(offset) =>
        CutLosesAnOpen(pattern, start, start + offset);
        Cut(pattern[..start], pattern[start + 1..start + offset], pattern[start + offset + 1..])
  }

  lemma CutLosesAnOpen(pattern: string, start: nat, end: nat)
    requires start < end < |pattern| && pattern[start] == '{'
    ensures Opens(pattern[..start]) + Opens(pattern[start + 1..end]) + Opens(pattern[end + 1..]) < Opens(pattern)
  {
    OpensSplit(pattern, start);
    OpensSplit(pattern[start..], 1);
    var tail := pattern[start + 1..];
    assert pattern[start..][1..] == tail && Opens(pattern[start..][..1]) == 1;
    OpensSplit(tail, end - start - 1);
    assert tail[..end - start - 1] == pattern[start + 1..end] && tail[end - start - 1..] == pattern[end..];
    OpensSplit(pattern[end..], 1);
    assert pattern[end..][1..] == pattern[end + 1..];
  }

  predicate Fewer(prefix: string, alternatives: seq<string>, suffix: string, bound: nat) {
    forall a :: a in alternatives ==> Opens(prefix + a + suffix) < bound
  }

  lemma PiecesHaveFewer(prefix: string, middle: string, suffix: string, bound: nat)
    requires Opens(prefix) + Opens(middle) + Opens(suffix) < bound && Split(middle).Ok?
    ensures Fewer(prefix, Split(middle).value, suffix, bound)
  {
    SplitKeepsOpens(middle, [], 0, false);
    forall a | a in Split(middle).value
      ensures Opens(prefix + a + suffix) < bound
    {
      OpensConcat(prefix + a, suffix);
      OpensConcat(prefix, a);
    }
  }

  function Expand(pattern: string): Option<seq<string>>
    decreases Opens(pattern), 1, 0
  {
    match PiecesOf(pattern)
    case Plain => Some([pattern])
    case Unclosed => None
    case Cut(prefix, middle, suffix) =>
      match Split(middle)
      case Err(_) => None
      case Ok(alternatives) =>
        PiecesHaveFewer(prefix, middle, suffix, Opens(pattern));
        ExpandEach(prefix, alternatives, suffix, Opens(pattern))
  }

  function ExpandEach(prefix: string, alternatives: seq<string>, suffix: string, bound: nat): Option<seq<string>>
    requires Fewer(prefix, alternatives, suffix, bound)
    decreases bound, 0, |alternatives|
  {
    if alternatives == [] then Some([])
    else
      assert alternatives[0] in alternatives;
      assert forall a :: a in alternatives[1..] ==> a in alternatives;
      match (Expand(prefix + alternatives[0] + suffix), ExpandEach(prefix, alternatives[1..], suffix, bound))
      case (Some(first), Some(others)) => Some(first + others)
      case _ => None
  }

  method FindEnd(pattern: string, start: nat) returns (end: Option<nat>)
    requires start < |pattern| && pattern[start] == '{'
    ensures end == match Close(pattern[start..], 0) case Some(k) => Some(start + k) case None => None
  {
    var depth: nat := 0;
    for index := start to |pattern|
      invariant Close(pattern[start..], 0) ==
                match Close(pattern[index..], depth) case Some(k) => Some(index - start + k) case None => None
      invariant index > start ==> depth > 0
    {
      assert pattern[index..][1..] == pattern[index + 1..];
      if pattern[index] == '{' {
        depth := depth + 1;
      }
      if pattern[index] == '}' {
        if depth == 0 {
          return None;
        }
        depth := depth - 1;
        if depth == 0 {
          return Some(index);
        }
      }
    }
    assert pattern[|pattern|..] == [];
    return None;
  }

  method FindPieces(pattern: string) returns (r: Pieces)
    ensures r == PiecesOf(pattern)
  {
    var start := 0;
    while start < |pattern| && pattern[start] != '{'
      invariant start <= |pattern| && '{' !in pattern[..start]
    {
      start := start + 1;
    }
    FirstOpenIs(pattern, start);
    if start == |pattern| {
      return Plain;
    }
    var end := FindEnd(pattern, start);
    if end.None? {
      return Unclosed;
    }
    return Cut(pattern[..start], pattern[start + 1..end.value], pattern[end.value + 1..]);
  }

  method ExpandBraces(pattern: string) returns (r: Option<seq<string>>)
    ensures r == Expand(pattern)
    decreases Opens(pattern), 1
  {
    var pieces := FindPieces(pattern);
    if pieces.Plain? {
      return Some([pattern]);
    } else if pieces.Unclosed? {
      return None;
    }
    var alternatives := SplitPatternList(pieces.middle);
    if alternatives.Err? {
      return None;
    }
    PiecesHaveFewer(pieces.prefix, pieces.middle, pieces.suffix, Opens(pattern));
    r := ExpandAlternatives(pieces.prefix, alternatives.value, pieces.suffix, Opens(pattern));
  }

  method ExpandAlternatives(prefix: string, alternatives: seq<string>, suffix: string, ghost bound: nat)
      returns (r: Option<seq<string>>)
    requires Fewer(prefix, alternatives, suffix, bound)
    ensures r == ExpandEach(prefix, alternatives, suffix, bound)
    decreases bound, 0
  {
    var result := [];
    ghost var all := ExpandEach(prefix, alternatives, suffix, bound);
    assert alternatives[0..] == alternatives;
    assert all.Some? ==> [] + all.value == all.value;
    for i := 0 to |alternatives|
      invariant Fewer(prefix, alternatives[i..], suffix, bound)
      invariant all == match ExpandEach(prefix, alternatives[i..], suffix, bound)
                       case Some(others) => Some(result + others)
                       case None => None
    {
      assert alternatives[i..][0] == alternatives[i] && alternatives[i..][1..] == alternatives[i + 1..];
      var expanded := ExpandBraces(prefix + alternatives[i] + suffix);
      if expanded.None? {
        return None;
      }
      ghost var others := ExpandEach(prefix, alternatives[i + 1..], suffix, bound);
      assert others.Some? ==> result + (expanded.value + others.value) == result + expanded.value + others.value;
      result := result + expanded.value;
    }
    assert alternatives[|alternatives|..] == [] && result + [] == result;
    return Some(result);
  }

  lemma {:induction false} FirstOpenIs(s: string, i: nat)
    requires i <= |s| && '{' !in s[..i] && (i < |s| ==> s[i] == '{')
    ensures FirstOpen(s) == i
  {
    if i > 0 {
      assert s[0] == s[..i][0] && s[..i][1..] == s[1..][..i - 1];
      FirstOpenIs(s[1..], i - 1);
    }
  }

  // ----- the grammar and its meaning

  /** A pattern is a run of ordinary characters, escaped characters and brace groups. */
  datatype Pat = End | Chr(c: char, rest: Pat) | Esc(c: char, rest: Pat) | Group(alts: Alts, rest: Pat)

  /** A group offers one or more comma-separated alternatives, each a pattern. */
  datatype Alts = One(only: Pat) | More(first: Pat, others: Alts)

  predicate Ordinary(c: char) {
    c != '{' && c != '}' && c != ',' && c != '\\'
  }

  predicate WfPat(p: Pat) {
    match p
    case End => true
    case Chr(c, rest) => Ordinary(c) && WfPat(rest)
    case Esc(_, rest) => WfPat(rest)
    case Group(alts, rest) => WfAlts(alts) && WfPat(rest)
  }

  predicate WfAlts(a: Alts) {
    match a
    case One(p) => WfPat(p)
    case More(p, others) => WfPat(p) && WfAlts(others)
  }

  function Show(p: Pat): string {
    match p
    case End => []
    case Chr(c, rest) => [c] + Show(rest)
    case Esc(c, rest) => ['\\', c] + Show(rest)
    case Group(alts, rest) => ['{'] + ShowAlts(alts) + ['}'] + Show(rest)
  }

  function ShowAlts(a: Alts): string {
    match a
    case One(p) => Show(p)
    case More(p, others) => Show(p) + [','] + ShowAlts(others)
  }

  function AltList(a: Alts): (r: seq<Pat>)
    ensures r != []
  {
    match a
    case One(p) => [p]
    case More(p, others) => [p] + AltList(others)
  }

  function ShowEach(ps: seq<Pat>): (r: seq<string>)
    ensures |r| == |ps| && forall i :: 0 <= i < |ps| ==> r[i] == Show(ps[i])
  {
    if ps == [] then [] else [Show(ps[0])] + ShowEach(ps[1..])
  }

  /** Every string of `a` followed by every string of `b`, `a` varying slowest. */
  function Product(a: seq<string>, b: seq<string>): seq<string> {
    if a == [] then [] else Affix(a[0], b) + Product(a[1..], b)
  }

  function Affix(s: string, b: seq<string>): (r: seq<string>)
    ensures |r| == |b| && forall i :: 0 <= i < |b| ==> r[i] == s + b[i]
  {
    seq(|b|, i requires 0 <= i < |b| => s + b[i])
  }

  /** The meaning of a pattern: the ordered list of strings it stands for, escapes kept for
      the matcher. */
  function Denote(p: Pat): seq<string> {
    match p
    case End => [[]]
    case Chr(c, rest) => Affix([c], Denote(rest))
    case Esc(c, rest) => Affix(['\\', c], Denote(rest))
    case Group(alts, rest) => Product(DenoteAlts(alts), Denote(rest))
  }

  function DenoteAlts(a: Alts): seq<string> {
    match a
    case One(p) => Denote(p)
    case More(p, others) => Denote(p) + DenoteAlts(others)
  }

  lemma ShownFront(front: string, p: Pat, q: Pat, rest: string)
    requires !p.End? && p.rest == q
    requires front == match p
                      case Chr(c, _) => [c]
                      case Esc(c, _) => ['\\', c]
                      case Group(alts, _) => ['{'] + ShowAlts(alts) + ['}']
                      case End => []
    ensures Show(p) == front + Show(q) && Show(p) + rest == front + (Show(q) + rest)
  {
  }

  // ----- the patterns that expand to their meaning

  /** What can be checked of a text before expanding it: no opening brace is escaped, and no
      closing brace is escaped inside an open group. */
  predicate Safe(s: string, depth: nat, escaped: bool) {
    if s == [] then true
    else
      var c, tail := s[0], s[1..];
      if escaped then c != '{' && (c == '}' ==> depth == 0) && Safe(tail, depth, false)
      else if c == '\\' then Safe(tail, depth, true)
      else if c == '{' then Safe(tail, depth + 1, false)
      else if c == '}' && depth > 0 then Safe(tail, depth - 1, false)
      else Safe(tail, depth, false)
  }

  /** The same of a pattern, which may stand inside a group. */
  predicate Tame(p: Pat, inside: bool) {
    match p
    case End => true
    case Chr(_, rest) => Tame(rest, inside)
    case Esc(c, rest) => c != '{' && (c == '}' ==> !inside) && Tame(rest, inside)
    case Group(alts, rest) => TameAlts(alts) && Tame(rest, inside)
  }

  predicate TameAlts(a: Alts) {
    match a
    case One(p) => Tame(p, true)
    case More(p, others) => Tame(p, true) && TameAlts(others)
  }

  lemma SafeEscape(c: char, rest: string, depth: nat)
    ensures Safe(['\\', c] + rest, depth, false)
       <==> c != '{' && (c == '}' ==> depth == 0) && Safe(rest, depth, false)
  {
    var s := ['\\', c] + rest;
    assert s[1..] == [c] + rest && s[1..][1..] == rest;
  }

  lemma SafeChar(c: char, rest: string, depth: nat)
    requires c != '\\' && (c == '}' ==> depth > 0)
    ensures Safe([c] + rest, depth, false)
         == Safe(rest, if c == '{' then depth + 1 else if c == '}' then depth - 1 else depth, false)
  {
    assert ([c] + rest)[1..] == rest;
  }

  lemma {:induction false} SafeShown(p: Pat, rest: string, depth: nat)
    requires WfPat(p)
    ensures Safe(Show(p) + rest, depth, false) <==> Tame(p, depth > 0) && Safe(rest, depth, false)
    decreases p, 0
  {
    hide Safe;
    match p
    case End => assert [] + rest == rest;
    case Chr(c, tail) =>
      ShownFront([c], p, tail, rest);
      SafeChar(c, Show(tail) + rest, depth);
      SafeShown(tail, rest, depth);
    case Esc(c, tail) =>
      ShownFront(['\\', c], p, tail, rest);
      SafeEscape(c, Show(tail) + rest, depth);
      SafeShown(tail, rest, depth);
    case Group(alts, tail) =>
      ShownFront(['{'] + ShowAlts(alts) + ['}'], p, tail, rest);
      SafeShownGroup(alts, Show(tail) + rest, depth);
      SafeShown(tail, rest, depth);
  }

  lemma {:induction false} SafeShownGroup(alts: Alts, rest: string, depth: nat)
    requires WfAlts(alts)
    ensures Safe(['{'] + ShowAlts(alts) + ['}'] + rest, depth, false) <==> TameAlts(alts) && Safe(rest, depth, false)
    decreases alts, 1
  {
    hide *;
    var inner := ShowAlts(alts);
    assert ['{'] + inner + ['}'] + rest == ['{'] + (inner + (['}'] + rest));
    SafeChar('{', inner + (['}'] + rest), depth);
    SafeShownAlts(alts, ['}'] + rest, depth + 1);
    SafeChar('}', rest, depth + 1);
  }

  lemma {:induction false} SafeShownAlts(a: Alts, rest: string, depth: nat)
    requires WfAlts(a) && depth > 0
    ensures Safe(ShowAlts(a) + rest, depth, false) <==> TameAlts(a) && Safe(rest, depth, false)
    decreases a, 0
  {
    hide Safe;
    match a
    case One(p) => SafeShown(p, rest, depth);
    case More(p, others) =>
      var tail := [','] + (ShowAlts(others) + rest);
      assert ShowAlts(a) + rest == Show(p) + tail;
      SafeShown(p, tail, depth);
      SafeChar(',', ShowAlts(others) + rest, depth);
      SafeShownAlts(others, rest, depth);
  }

  /** The two say the same of a whole part. */
  lemma SafeIsTame(p: Pat)
    requires WfPat(p)
    ensures Safe(Show(p), 0, false) <==> Tame(p, false)
  {
    SafeShown(p, [], 0);
    assert Show(p) + [] == Show(p);
  }

  lemma {:induction false} TameWeakens(p: Pat)
    requires Tame(p, true)
    ensures Tame(p, false)
  {
    match p
    case End =>
    case Chr(_, rest) => TameWeakens(rest);
    case Esc(_, rest) => TameWeakens(rest);
    case Group(_, rest) => TameWeakens(rest);
  }

  // ----- algebra of products

  lemma AffixAffix(s: string, t: string, b: seq<string>)
    ensures Affix(s, Affix(t, b)) == Affix(s + t, b)
  {
    assert forall i :: 0 <= i < |b| ==> s + (t + b[i]) == s + t + b[i];
  }

  lemma AffixNothing(b: seq<string>)
    ensures Affix([], b) == b
  {
    assert forall i :: 0 <= i < |b| ==> [] + b[i] == b[i];
  }

  lemma AffixSum(s: string, a: seq<string>, b: seq<string>)
    ensures Affix(s, a + b) == Affix(s, a) + Affix(s, b)
  {
  }

  lemma {:induction false} AffixProduct(s: string, a: seq<string>, b: seq<string>)
    ensures Affix(s, Product(a, b)) == Product(Affix(s, a), b)
  {
    if a != [] {
      AffixProduct(s, a[1..], b);
      AffixSum(s, Affix(a[0], b), Product(a[1..], b));
      AffixAffix(s, a[0], b);
      assert Affix(s, a)[1..] == Affix(s, a[1..]);
    }
  }

  lemma {:induction false} ProductSum(a: seq<string>, b: seq<string>, c: seq<string>)
    ensures Product(a + b, c) == Product(a, c) + Product(b, c)
  {
    if a == [] {
      assert a + b == b;
    } else {
      assert (a + b)[1..] == a[1..] + b;
      ProductSum(a[1..], b, c);
    }
  }

  lemma {:induction false} ProductAssociates(a: seq<string>, b: seq<string>, c: seq<string>)
    ensures Product(Product(a, b), c) == Product(a, Product(b, c))
  {
    if a != [] {
      ProductAssociates(a[1..], b, c);
      ProductSum(Affix(a[0], b), Product(a[1..], b), c);
      AffixProduct(a[0], b, c);
    }
  }

  // ----- concatenation of patterns

  function Append(p: Pat, q: Pat): Pat {
    match p
    case End => q
    case Chr(c, rest) => Chr(c, Append(rest, q))
    case Esc(c, rest) => Esc(c, Append(rest, q))
    case Group(alts, rest) => Group(alts, Append(rest, q))
  }

  lemma {:induction false} AppendShows(p: Pat, q: Pat)
    ensures Show(Append(p, q)) == Show(p) + Show(q)
    ensures WfPat(p) && WfPat(q) ==> WfPat(Append(p, q))
  {
    match p
    case End => assert [] + Show(q) == Show(q);
    case Chr(c, rest) =>
      AppendShows(rest, q);
      assert [c] + (Show(rest) + Show(q)) == [c] + Show(rest) + Show(q);
    case Esc(c, rest) =>
      AppendShows(rest, q);
      assert ['\\', c] + (Show(rest) + Show(q)) == ['\\', c] + Show(rest) + Show(q);
    case Group(alts, rest) =>
      AppendShows(rest, q);
      assert ['{'] + ShowAlts(alts) + ['}'] + (Show(rest) + Show(q)) == Show(p) + Show(q);
  }

  lemma {:induction false} AppendDenotes(p: Pat, q: Pat)
    ensures Denote(Append(p, q)) == Product(Denote(p), Denote(q))
  {
    match p
    case End =>
      AffixNothing(Denote(q));
      assert Product([[]], Denote(q)) == Affix([], Denote(q)) + Product([], Denote(q));
    case Chr(c, rest) =>
      AppendDenotes(rest, q);
      AffixProduct([c], Denote(rest), Denote(q));
    case Esc(c, rest) =>
      AppendDenotes(rest, q);
      AffixProduct(['\\', c], Denote(rest), Denote(q));
    case Group(alts, rest) =>
      AppendDenotes(rest, q);
      ProductAssociates(DenoteAlts(alts), Denote(rest), Denote(q));
  }

  // ----- how the scans pass over shown patterns

  lemma EscapePasses(c: char, rest: string, current: string, depth: nat)
    ensures SplitFrom(['\\', c] + rest, current, depth, false) == SplitFrom(rest, current + ['\\', c], depth, false)
  {
    var s := ['\\', c] + rest;
    assert s[1..] == [c] + rest && s[1..][1..] == rest;
    assert current + ['\\'] + [c] == current + ['\\', c];
  }

  lemma CharPasses(c: char, rest: string, current: string, depth: nat)
    requires Ordinary(c)
    ensures SplitFrom([c] + rest, current, depth, false) == SplitFrom(rest, current + [c], depth, false)
  {
    assert ([c] + rest)[1..] == rest;
  }

  lemma OpenPasses(rest: string, current: string, depth: nat)
    ensures SplitFrom(['{'] + rest, current, depth, false) == SplitFrom(rest, current + ['{'], depth + 1, false)
  {
    assert (['{'] + rest)[1..] == rest;
  }

  lemma ClosePasses(rest: string, current: string, depth: nat)
    requires depth > 0
    ensures SplitFrom(['}'] + rest, current, depth, false) == SplitFrom(rest, current + ['}'], depth - 1, false)
  {
    assert (['}'] + rest)[1..] == rest;
  }

  lemma {:induction false} SplitPassesPat(p: Pat, rest: string, current: string, depth: nat)
    requires WfPat(p)
    ensures SplitFrom(Show(p) + rest, current, depth, false) == SplitFrom(rest, current + Show(p), depth, false)
    decreases p, 0
  {
    hide SplitFrom;
    match p
    case End =>
      assert [] + rest == rest && current + [] == current;
    case Chr(c, tail) =>
      ShownFront([c], p, tail, rest);
      hide Show;
      CharPasses(c, Show(tail) + rest, current, depth);
      SplitPassesPat(tail, rest, current + [c], depth);
      Regroup(current, [c], Show(tail));
    case Esc(c, tail) =>
      ShownFront(['\\', c], p, tail, rest);
      hide Show;
      EscapePasses(c, Show(tail) + rest, current, depth);
      SplitPassesPat(tail, rest, current + ['\\', c], depth);
      Regroup(current, ['\\', c], Show(tail));
    case Group(alts, tail) =>
      ShownFront(['{'] + ShowAlts(alts) + ['}'], p, tail, rest);
      GroupPasses(alts, Show(tail) + rest, current, depth);
      hide Show;
      hide ShowAlts;
      SplitPassesPat(tail, rest, current + (['{'] + ShowAlts(alts) + ['}']), depth);
      Regroup(current, ['{'] + ShowAlts(alts) + ['}'], Show(tail));
  }

  lemma {:induction false} GroupPasses(alts: Alts, rest: string, current: string, depth: nat)
    requires WfAlts(alts)
    ensures SplitFrom(['{'] + ShowAlts(alts) + ['}'] + rest, current, depth, false)
         == SplitFrom(rest, current + (['{'] + ShowAlts(alts) + ['}']), depth, false)
    decreases alts, 1
  {
    hide SplitFrom;
    hide ShowAlts;
    var inner := ShowAlts(alts);
    assert ['{'] + inner + ['}'] + rest == ['{'] + (inner + (['}'] + rest));
    OpenPasses(inner + (['}'] + rest), current, depth);
    SplitPassesAlts(alts, ['}'] + rest, current + ['{'], depth + 1);
    ClosePasses(rest, current + ['{'] + inner, depth + 1);
    assert current + ['{'] + inner + ['}'] == current + (['{'] + inner + ['}']);
  }

  lemma {:induction false} SplitPassesAlts(a: Alts, rest: string, current: string, depth: nat)
    requires WfAlts(a) && depth > 0
    ensures SplitFrom(ShowAlts(a) + rest, current, depth, false) == SplitFrom(rest, current + ShowAlts(a), depth, false)
    decreases a, 0
  {
    match a
    case One(p) => SplitPassesPat(p, rest, current, depth);
    case More(p, others) =>
      var tail := [','] + (ShowAlts(others) + rest);
      assert ShowAlts(a) + rest == Show(p) + tail;
      SplitPassesPat(p, tail, current, depth);
      assert tail[1..] == ShowAlts(others) + rest;
      SplitPassesAlts(others, rest, current + Show(p) + [','], depth);
      assert current + Show(p) + [','] + ShowAlts(others) == current + ShowAlts(a);
  }

  /** Splitting a shown list of alternatives gives back each of them. */
  lemma {:induction false} SplitShown(a: Alts)
    requires WfAlts(a)
    ensures Split(ShowAlts(a)) == Ok(ShowEach(AltList(a)))
  {
    match a
    case One(p) =>
      assert Show(p) + [] == Show(p) && [] + Show(p) == Show(p);
      SplitPassesPat(p, [], [], 0);
      assert AltList(a) == [p] && ShowEach([p]) == [Show(p)];
    case More(p, others) =>
      var tail := [','] + ShowAlts(others);
      assert ShowAlts(a) == Show(p) + tail && [] + Show(p) == Show(p);
      SplitPassesPat(p, tail, [], 0);
      assert tail[1..] == ShowAlts(others);
      SplitShown(others);
      assert AltList(a)[1..] == AltList(others);
  }

  lemma Regroup(a: string, b: string, c: string)
    ensures a + (b + c) == a + b + c
  {
  }

  /** The closing scan moves past some text without closing. */
  function Beyond(r: Option<nat>, n: nat): Option<nat> {
    match r case Some(k) => Some(n + k) case None => None
  }

  lemma CloseMoves(c: char, rest: string, depth: nat)
    requires c == '}' ==> depth > 1
    ensures Close([c] + rest, depth)
         == Beyond(Close(rest, if c == '{' then depth + 1 else if c == '}' then depth - 1 else depth), 1)
  {
    assert ([c] + rest)[1..] == rest;
  }

  lemma {:induction false} ClosePassesPat(p: Pat, rest: string, depth: nat)
    requires WfPat(p) && Tame(p, true) && depth > 0
    ensures Close(Show(p) + rest, depth) == Beyond(Close(rest, depth), |Show(p)|)
    decreases p, 0
  {
    hide Close;
    match p
    case End => assert [] + rest == rest;
    case Chr(c, tail) =>
      ShownFront([c], p, tail, rest);
      CloseMoves(c, Show(tail) + rest, depth);
      ClosePassesPat(tail, rest, depth);
    case Esc(c, tail) =>
      ShownFront(['\\', c], p, tail, rest);
      CloseMoves('\\', [c] + (Show(tail) + rest), depth);
      assert ['\\'] + ([c] + (Show(tail) + rest)) == ['\\', c] + (Show(tail) + rest);
      CloseMoves(c, Show(tail) + rest, depth);
      ClosePassesPat(tail, rest, depth);
    case Group(alts, tail) =>
      ShownFront(['{'] + ShowAlts(alts) + ['}'], p, tail, rest);
      ClosePassesGroup(alts, Show(tail) + rest, depth);
      ClosePassesPat(tail, rest, depth);
  }

  lemma {:induction false} ClosePassesGroup(alts: Alts, rest: string, depth: nat)
    requires WfAlts(alts) && TameAlts(alts) && depth > 0
    ensures Close(['{'] + ShowAlts(alts) + ['}'] + rest, depth) == Beyond(Close(rest, depth), |ShowAlts(alts)| + 2)
    decreases alts, 1
  {
    hide *;
    var inner := ShowAlts(alts);
    assert ['{'] + inner + ['}'] + rest == ['{'] + (inner + (['}'] + rest));
    CloseMoves('{', inner + (['}'] + rest), depth);
    ClosePassesAlts(alts, ['}'] + rest, depth + 1);
    CloseMoves('}', rest, depth + 1);
    BeyondTwice(Close(['}'] + rest, depth + 1), |inner|, 1);
    BeyondTwice(Close(rest, depth), 1, |inner| + 1);
  }

  lemma BeyondTwice(r: Option<nat>, m: nat, n: nat)
    ensures Beyond(Beyond(r, m), n) == Beyond(r, m + n)
  {
  }

  lemma {:induction false} ClosePassesAlts(a: Alts, rest: string, depth: nat)
    requires WfAlts(a) && TameAlts(a) && depth > 0
    ensures Close(ShowAlts(a) + rest, depth) == Beyond(Close(rest, depth), |ShowAlts(a)|)
    decreases a, 0
  {
    match a
    case One(p) => ClosePassesPat(p, rest, depth);
    case More(p, others) =>
      var tail := [','] + (ShowAlts(others) + rest);
      assert ShowAlts(a) + rest == Show(p) + tail;
      ClosePassesPat(p, tail, depth);
      assert tail[1..] == ShowAlts(others) + rest;
      ClosePassesAlts(others, rest, depth);
  }

  // ----- expansion computes the meaning

  /** No group. */
  predicate Flat(p: Pat) {
    match p
    case End => true
    case Chr(_, rest) => Flat(rest)
    case Esc(_, rest) => Flat(rest)
    case Group(_, _) => false
  }

  lemma {:induction false} FlatShows(p: Pat)
    requires Flat(p)
    ensures Denote(p) == [Show(p)]
    ensures Tame(p, false) && WfPat(p) ==> '{' !in Show(p)
  {
    match p
    case End =>
    case Chr(_, rest) => FlatShows(rest);
    case Esc(_, rest) => FlatShows(rest);
  }

  /** The part of a pattern before its first group, and the rest. */
  function Front(p: Pat): Pat {
    match p
    case End => End
    case Chr(c, rest) => Chr(c, Front(rest))
    case Esc(c, rest) => Esc(c, Front(rest))
    case Group(_, _) => End
  }

  function Back(p: Pat): Pat {
    match p
    case End => End
    case Chr(_, rest) => Back(rest)
    case Esc(_, rest) => Back(rest)
    case Group(_, _) => p
  }

  lemma {:induction false} FrontBack(p: Pat)
    ensures p == Append(Front(p), Back(p)) && Flat(Front(p)) && (Back(p).End? || Back(p).Group?)
    ensures WfPat(p) ==> WfPat(Front(p)) && WfPat(Back(p))
    ensures Tame(p, false) <==> Tame(Front(p), false) && Tame(Back(p), false)
  {
    match p
    case End =>
    case Chr(_, rest) => FrontBack(rest);
    case Esc(_, rest) => FrontBack(rest);
    case Group(_, _) =>
  }

  lemma {:induction false} TameAppend(p: Pat, q: Pat)
    ensures Tame(Append(p, q), false) <==> Tame(p, false) && Tame(q, false)
  {
    match p
    case End =>
    case Chr(_, rest) => TameAppend(rest, q);
    case Esc(_, rest) => TameAppend(rest, q);
    case Group(_, rest) => TameAppend(rest, q);
  }

  lemma {:induction false} AltsAreWf(a: Alts)
    requires WfAlts(a)
    ensures forall p :: p in AltList(a) ==> WfPat(p)
  {
    match a
    case One(p) =>
    case More(p, others) => AltsAreWf(others);
  }

  /** One alternative between a flat front and the rest, as a pattern. */
  lemma Between(front: Pat, p: Pat, rest: Pat)
    requires WfPat(front) && WfPat(p) && WfPat(rest) && Flat(front)
    ensures var whole := Append(front, Append(p, rest));
            && WfPat(whole) && Show(whole) == Show(front) + Show(p) + Show(rest)
            && Denote(whole) == Affix(Show(front), Product(Denote(p), Denote(rest)))
            && (Tame(whole, false) <==> Tame(front, false) && Tame(p, false) && Tame(rest, false))
  {
    hide *;
    var tail := Append(p, rest);
    AppendShows(p, rest);
    AppendShows(front, tail);
    AppendDenotes(p, rest);
    AppendDenotes(front, tail);
    FlatShows(front);
    ProductOne(Show(front), Denote(tail));
    TameAppend(p, rest);
    TameAppend(front, tail);
    Regroup(Show(front), Show(p), Show(rest));
  }

  lemma {:induction false} AlternativeExpands(front: Pat, p: Pat, rest: Pat, bound: nat)
    requires WfPat(front) && WfPat(p) && WfPat(rest) && Flat(front)
    requires Tame(front, false) && Tame(p, false) && Tame(rest, false)
    requires Opens(Show(front) + Show(p) + Show(rest)) < bound
    ensures Expand(Show(front) + Show(p) + Show(rest)) == Some(Affix(Show(front), Product(Denote(p), Denote(rest))))
    decreases bound, 0, p
  {
    Between(front, p, rest);
    ExpandDenotes(Append(front, Append(p, rest)));
  }

  lemma ProductOne(s: string, b: seq<string>)
    ensures Product([s], b) == Affix(s, b)
  {
    assert [s][1..] == [];
  }

  /** Expanding each alternative between the same front and rest. */
  lemma {:induction false} ExpandEachDenotes(front: Pat, alts: Alts, rest: Pat, bound: nat)
    requires WfPat(front) && WfAlts(alts) && WfPat(rest) && Flat(front)
    requires Tame(front, false) && TameAlts(alts) && Tame(rest, false)
    requires Fewer(Show(front), ShowEach(AltList(alts)), Show(rest), bound)
    ensures ExpandEach(Show(front), ShowEach(AltList(alts)), Show(rest), bound)
         == Some(Affix(Show(front), Product(DenoteAlts(alts), Denote(rest))))
    decreases bound, 1, alts
  {
    var shown, prefix := ShowEach(AltList(alts)), Show(front);
    assert shown[0] in shown;
    match alts
    case One(p) =>
      TameWeakens(p);
      AlternativeExpands(front, p, rest, bound);
      assert shown == [Show(p)] && shown[1..] == [];
      OneSum(Affix(prefix, Product(Denote(p), Denote(rest))));
      hide Expand;
      hide Product;
      hide Affix;
    case More(p, others) =>
      TameWeakens(p);
      AlternativeExpands(front, p, rest, bound);
      assert AltList(alts)[1..] == AltList(others) && shown[1..] == ShowEach(AltList(others));
      assert forall a :: a in shown[1..] ==> a in shown;
      hide Expand;
      hide Product;
      hide Affix;
      hide Show;
      ExpandEachDenotes(front, others, rest, bound);
      ProductSum(Denote(p), DenoteAlts(others), Denote(rest));
      AffixSum(prefix, Product(Denote(p), Denote(rest)), Product(DenoteAlts(others), Denote(rest)));
  }

  lemma OneSum(a: seq<string>)
    ensures a + [] == a
  {
  }

  lemma GroupCloses(alts: Alts, rest: Pat)
    requires WfAlts(alts) && TameAlts(alts)
    ensures Close(Show(Group(alts, rest)), 0) == Some(1 + |ShowAlts(alts)|)
  {
    var closing := ['}'] + Show(rest);
    assert Show(Group(alts, rest))[1..] == ShowAlts(alts) + closing;
    ClosePassesAlts(alts, closing, 1);
  }

  lemma SlicesOf(prefix: string, body: string, suffix: string)
    ensures var s := prefix + (['{'] + body + ['}'] + suffix);
            && s[..|prefix|] == prefix && s[|prefix|..] == ['{'] + body + ['}'] + suffix
            && s[|prefix| + 1..|prefix| + 1 + |body|] == body && s[|prefix| + |body| + 2..] == suffix
            && s[|prefix|] == '{'
  {
  }

  lemma CutIs(prefix: string, body: string, suffix: string)
    requires '{' !in prefix && Close(['{'] + body + ['}'] + suffix, 0) == Some(1 + |body|)
    ensures PiecesOf(prefix + (['{'] + body + ['}'] + suffix)) == Cut(prefix, body, suffix)
  {
    hide Close;
    hide FirstOpen;
    SlicesOf(prefix, body, suffix);
    FirstOpenIs(prefix + (['{'] + body + ['}'] + suffix), |prefix|);
  }

  /** The expander cuts a pattern around its first group. */
  lemma GroupIsCut(prefix: string, alts: Alts, rest: Pat)
    requires '{' !in prefix && WfAlts(alts) && TameAlts(alts)
    ensures PiecesOf(prefix + Show(Group(alts, rest))) == Cut(prefix, ShowAlts(alts), Show(rest))
  {
    GroupCloses(alts, rest);
    assert Show(Group(alts, rest)) == ['{'] + ShowAlts(alts) + ['}'] + Show(rest);
    hide *;
    CutIs(prefix, ShowAlts(alts), Show(rest));
  }

  lemma NoGroupIsPlain(s: string)
    requires '{' !in s
    ensures Expand(s) == Some([s])
  {
    assert s[..|s|] == s;
    FirstOpenIs(s, |s|);
  }

  /** Expansion of a shown pattern succeeds and lists exactly what the pattern denotes. */
  lemma {:induction false} ExpandDenotes(p: Pat)
    requires WfPat(p) && Tame(p, false)
    ensures Expand(Show(p)) == Some(Denote(p))
    decreases Opens(Show(p)), 2, p
  {
    var front, q := Front(p), Back(p);
    FrontBack(p);
    FlatShows(front);
    AppendShows(front, q);
    AppendDenotes(front, q);
    ProductOne(Show(front), Denote(q));
    match q
    case End =>
      assert Show(p) == Show(front) && Show(front) + [] == Show(front);
      NoGroupIsPlain(Show(front));
      assert Affix(Show(front), [[]]) == [Show(front)];
    case Group(alts, rest) =>
      assert WfAlts(alts) && WfPat(rest) && TameAlts(alts) && Tame(rest, false) && Show(p) == Show(front) + Show(q);
      GroupExpands(front, alts, rest);
  }

  lemma {:induction false} GroupExpands(front: Pat, alts: Alts, rest: Pat)
    requires WfPat(front) && WfAlts(alts) && WfPat(rest) && Flat(front)
    requires Tame(front, false) && TameAlts(alts) && Tame(rest, false)
    ensures Expand(Show(front) + Show(Group(alts, rest)))
         == Some(Affix(Show(front), Product(DenoteAlts(alts), Denote(rest))))
    decreases Opens(Show(front) + Show(Group(alts, rest))), 1
  {
    var whole := Show(front) + Show(Group(alts, rest));
    FlatShows(front);
    GroupIsCut(Show(front), alts, rest);
    SplitShown(alts);
    hide Show;
    hide ShowAlts;
    hide PiecesOf;
    hide Opens;
    hide ExpandEach;
    PiecesHaveFewer(Show(front), ShowAlts(alts), Show(rest), Opens(whole));
    ExpandEachDenotes(front, alts, rest, Opens(whole));
  }

  // ----- every accepted list is in the grammar

  /** Whether a text ends in the middle of an escape. */
  function Dangling(s: string, escaped: bool): bool {
    if s == [] then escaped else Dangling(s[1..], !escaped && s[0] == '\\')
  }

  lemma {:induction false} DanglingConcat(a: string, b: string, escaped: bool)
    ensures Dangling(a + b, escaped) == Dangling(b, Dangling(a, escaped))
  {
    if a == [] {
      assert a + b == b;
    } else {
      assert (a + b)[1..] == a[1..] + b;
      DanglingConcat(a[1..], b, !escaped && a[0] == '\\');
    }
  }

  /** The text with a final lone backslash doubled, as the splitter doubles it. */
  function Completed(s: string): string {
    if Dangling(s, false) then s + ['\\'] else s
  }

  lemma {:induction false} SplitCompletes(s: string, current: string, depth: nat, escaped: bool)
    requires Dangling(s, escaped)
    ensures SplitFrom(s + ['\\'], current, depth, escaped) == SplitFrom(s, current, depth, escaped)
    decreases |s|
  {
    var t := s + ['\\'];
    if s == [] {
      assert t == ['\\'] && t[1..] == [];
    } else {
      var c, tail := s[0], s[1..];
      assert t[0] == c && t[1..] == tail + ['\\'];
      if escaped {
        SplitCompletes(tail, current + [c], depth, false);
      } else if c == '\\' {
        SplitCompletes(tail, current + [c], depth, true);
      } else if c == '{' {
        SplitCompletes(tail, current + [c], depth + 1, false);
      } else if c == '}' {
        if depth > 0 {
          SplitCompletes(tail, current + [c], depth - 1, false);
        }
      } else if c == ',' && depth == 0 {
        SplitCompletes(tail, [], 0, false);
      } else {
        SplitCompletes(tail, current + [c], depth, false);
      }
    }
  }

  lemma SplitCompleted(s: string)
    ensures Split(Completed(s)) == Split(s) && !Dangling(Completed(s), false)
  {
    DanglingConcat(s, ['\\'], false);
    if Dangling(s, false) {
      SplitCompletes(s, [], 0, false);
      assert Dangling(['\\'], true) == Dangling([], false);
    }
  }

  lemma DanglingPiece(front: string, rest: string)
    requires !Dangling(front, false)
    ensures Dangling(front + rest, false) == Dangling(rest, false)
  {
    DanglingConcat(front, rest, false);
  }

  lemma {:induction false} ShownIsComplete(p: Pat)
    requires WfPat(p)
    ensures !Dangling(Show(p), false)
    decreases p, 0
  {
    match p
    case End =>
    case Chr(c, tail) =>
      assert !Dangling([c], false);
      hide Dangling;
      ShownIsComplete(tail);
      DanglingPiece([c], Show(tail));
    case Esc(c, tail) =>
      assert ['\\', c][1..] == [c] && [c][1..] == [];
      assert !Dangling([c], true);
      assert !Dangling(['\\', c], false);
      hide Dangling;
      ShownIsComplete(tail);
      DanglingPiece(['\\', c], Show(tail));
    case Group(alts, tail) =>
      assert !Dangling(['{'], false) && !Dangling(['}'], false);
      hide Dangling;
      ShownAltsComplete(alts);
      ShownIsComplete(tail);
      DanglingPiece(['{'], ShowAlts(alts));
      DanglingPiece(['{'] + ShowAlts(alts), ['}']);
      DanglingPiece(['{'] + ShowAlts(alts) + ['}'], Show(tail));
  }

  lemma {:induction false} ShownAltsComplete(a: Alts)
    requires WfAlts(a)
    ensures !Dangling(ShowAlts(a), false)
    decreases a, 0
  {
    match a
    case One(p) => ShownIsComplete(p);
    case More(p, others) =>
      assert !Dangling([','], false);
      hide Dangling;
      ShownIsComplete(p);
      ShownAltsComplete(others);
      DanglingPiece(Show(p), [',']);
      DanglingPiece(Show(p) + [','], ShowAlts(others));
  }

  /** Takes the longest pattern off the front of a text the splitter accepts. */
  lemma {:induction false} TakePat(s: string, current: string, depth: nat) returns (p: Pat, rest: string)
    requires !Dangling(s, false) && SplitFrom(s, current, depth, false).Ok?
    ensures WfPat(p) && s == Show(p) + rest && !Dangling(rest, false)
    ensures rest == [] || rest[0] == ',' || rest[0] == '}'
    decreases |s|, 0
  {
    if s == [] || s[0] == ',' || s[0] == '}' {
      p, rest := End, s;
      assert s == [] + s;
    } else if s[0] == '{' {
      var alts, rest' := TakeAlts(s[1..], current + ['{'], depth + 1);
      GroupPassed(s, alts, rest', current, depth);
      var q, rest'' := TakePat(rest', current + ['{'] + ShowAlts(alts) + ['}'], depth);
      p, rest := Group(alts, q), rest'';
      hide Show;
      ShownFront(['{'] + ShowAlts(alts) + ['}'], p, q, rest);
    } else if s[0] == '\\' {
      var c, tail := s[1], s[2..];
      assert s == ['\\', c] + tail && s[1..][1..] == tail;
      EscapePasses(c, tail, current, depth);
      var q, rest' := TakePat(tail, current + ['\\', c], depth);
      p, rest := Esc(c, q), rest';
      hide Show;
      ShownFront(['\\', c], p, q, rest);
    } else {
      var q, rest' := TakePat(s[1..], current + [s[0]], depth);
      p, rest := Chr(s[0], q), rest';
      hide Show;
      assert s == [s[0]] + s[1..];
      ShownFront([s[0]], p, q, rest);
    }
  }

  lemma GroupPassed(s: string, alts: Alts, rest: string, current: string, depth: nat)
    requires s != [] && s[0] == '{' && WfAlts(alts) && s[1..] == ShowAlts(alts) + ['}'] + rest
    ensures s == ['{'] + ShowAlts(alts) + ['}'] + rest
    ensures SplitFrom(s, current, depth, false)
         == SplitFrom(rest, current + ['{'] + ShowAlts(alts) + ['}'], depth, false)
  {
    assert s == ['{'] + s[1..];
    assert ['{'] + (ShowAlts(alts) + ['}'] + rest) == ['{'] + ShowAlts(alts) + ['}'] + rest;
    GroupPasses(alts, rest, current, depth);
    hide SplitFrom;
    hide ShowAlts;
    assert current + (['{'] + ShowAlts(alts) + ['}']) == current + ['{'] + ShowAlts(alts) + ['}'];
  }

  lemma {:induction false} TakeAlts(s: string, current: string, depth: nat) returns (a: Alts, rest: string)
    requires !Dangling(s, false) && depth > 0 && SplitFrom(s, current, depth, false).Ok?
    ensures WfAlts(a) && s == ShowAlts(a) + ['}'] + rest && !Dangling(rest, false)
    decreases |s|, 1
  {
    var p, tail := TakePat(s, current, depth);
    SplitPassesPat(p, tail, current, depth);
    InsideGroup(tail, current + Show(p), depth);
    hide Show;
    hide SplitFrom;
    hide Dangling;
    if tail[0] == '}' {
      a, rest := One(p), tail[1..];
      ClosesAlts(p, tail);
    } else {
      var others, rest' := TakeAlts(tail[1..], current + Show(p) + [','], depth);
      a, rest := More(p, others), rest';
      MoreAlts(p, others, tail, rest);
    }
  }

  lemma InsideGroup(tail: string, current: string, depth: nat)
    requires depth > 0 && SplitFrom(tail, current, depth, false).Ok? && !Dangling(tail, false)
    ensures tail != []
    ensures tail[0] == ',' ==> SplitFrom(tail[1..], current + [','], depth, false).Ok?
    ensures tail[0] == ',' || tail[0] == '}' ==> !Dangling(tail[1..], false)
  {
  }

  lemma ClosesAlts(p: Pat, tail: string)
    requires tail != [] && tail[0] == '}'
    ensures Show(p) + tail == ShowAlts(One(p)) + ['}'] + tail[1..]
  {
    assert tail == ['}'] + tail[1..];
  }

  lemma MoreAlts(p: Pat, others: Alts, tail: string, rest: string)
    requires tail != [] && tail[0] == ',' && tail[1..] == ShowAlts(others) + ['}'] + rest
    ensures Show(p) + tail == ShowAlts(More(p, others)) + ['}'] + rest
  {
    assert tail == [','] + tail[1..];
    hide Show;
    var a, b := Show(p), ShowAlts(others);
    assert ShowAlts(More(p, others)) == a + [','] + b;
    hide ShowAlts;
    assert a + ([','] + (b + ['}'] + rest)) == (a + [','] + b) + ['}'] + rest;
  }

  lemma {:induction false} TopAlts(s: string) returns (a: Alts)
    requires !Dangling(s, false) && Split(s).Ok?
    ensures WfAlts(a) && s == ShowAlts(a)
    decreases |s|
  {
    var p, tail := TakePat(s, [], 0);
    SplitPassesPat(p, tail, [], 0);
    if tail == [] {
      a := One(p);
      assert Show(p) + [] == Show(p);
    } else {
      assert tail[0] == ',';
      var others := TopAlts(tail[1..]);
      a := More(p, others);
      assert tail == [','] + tail[1..];
    }
  }

  /** The grammar is exactly what the splitter accepts, a final lone backslash doubled. */
  lemma SplitAcceptsGrammar(s: string)
    ensures Split(s).Ok? <==> exists a :: WfAlts(a) && Completed(s) == ShowAlts(a)
  {
    SplitCompleted(s);
    if Split(s).Ok? {
      var a := TopAlts(Completed(s));
    }
    forall a | WfAlts(a) && Completed(s) == ShowAlts(a)
      ensures Split(s).Ok?
    {
      SplitShown(a);
    }
  }

  /** The key law: expansion of two joined balanced patterns is the product of theirs. */
  lemma ExpandJoined(p: Pat, q: Pat)
    requires WfPat(p) && WfPat(q) && Tame(p, false) && Tame(q, false)
    ensures Expand(Show(p)).Some? && Expand(Show(q)).Some?
    ensures Expand(Show(p) + Show(q)) == Some(Product(Expand(Show(p)).value, Expand(Show(q)).value))
  {
    ExpandDenotes(p);
    ExpandDenotes(q);
    AppendShows(p, q);
    AppendDenotes(p, q);
    TameAppend(p, q);
    ExpandDenotes(Append(p, q));
  }
}
