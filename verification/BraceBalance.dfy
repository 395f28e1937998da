/** Counting braces, to find where escapes make the expander go wrong.

    `Balance` counts closing braces that have no opening one, escaped braces aside. The splitter
    accepts only texts of balance zero, and a text without escaped opening braces keeps its
    balance at least through an expansion (`NeverLower`): it gains one where a cut ends at an
    escaped closing brace and never loses one. Every string that a pattern denotes has balance
    zero, so an expansion to what the pattern denotes made no such cut, and its cuts are the
    pattern's groups (`EvenExpansionIsTame`). A pattern with an escaped opening brace is not
    expanded to what it denotes because no expansion holds an opening brace (`NoOpenIsLeft`). */
module BraceBalance {
  import opened Braces

  // ----- counting braces

  /** Closing braces minus opening ones, escaped ones not counted. */
  function Balance(s: string, escaped: bool): int {
    if s == [] then 0
    else (if escaped then 0 else if s[0] == '}' then 1 else if s[0] == '{' then -1 else 0)
         + Balance(s[1..], !escaped && s[0] == '\\')
  }

  /** The same, escaped ones counted. */
  function FullBalance(s: string): int {
    if s == [] then 0 else (if s[0] == '}' then 1 else if s[0] == '{' then -1 else 0) + FullBalance(s[1..])
  }

  predicate NoEscapedOpen(s: string, escaped: bool) {
    s == [] || (!(escaped && s[0] == '{') && NoEscapedOpen(s[1..], !escaped && s[0] == '\\'))
  }

  function EscapedCloses(s: string, escaped: bool): nat {
    if s == [] then 0 else (if escaped && s[0] == '}' then 1 else 0) + EscapedCloses(s[1..], !escaped && s[0] == '\\')
  }

  lemma {:induction false} BalanceConcat(a: string, b: string, escaped: bool)
    ensures Balance(a + b, escaped) == Balance(a, escaped) + Balance(b, Dangling(a, escaped))
  {
    if a == [] {
      assert a + b == b;
    } else {
      assert (a + b)[1..] == a[1..] + b;
      BalanceConcat(a[1..], b, !escaped && a[0] == '\\');
    }
  }

  lemma {:induction false} NoOpenConcat(a: string, b: string, escaped: bool)
    ensures NoEscapedOpen(a + b, escaped) <==> NoEscapedOpen(a, escaped) && NoEscapedOpen(b, Dangling(a, escaped))
  {
    if a == [] {
      assert a + b == b;
    } else {
      assert (a + b)[1..] == a[1..] + b;
      NoOpenConcat(a[1..], b, !escaped && a[0] == '\\');
    }
  }

  lemma {:induction false} FullIs(s: string, escaped: bool)
    requires NoEscapedOpen(s, escaped)
    ensures FullBalance(s) == Balance(s, escaped) + EscapedCloses(s, escaped)
  {
    if s != [] {
      FullIs(s[1..], !escaped && s[0] == '\\');
    }
  }

  /** One character added at the end. */
  lemma OneMore(s: string, c: char)
    ensures Dangling(s + [c], false) == (!Dangling(s, false) && c == '\\')
    ensures Balance(s + [c], false)
         == Balance(s, false) + if Dangling(s, false) then 0 else if c == '}' then 1 else if c == '{' then -1 else 0
    ensures NoEscapedOpen(s + [c], false) <==> NoEscapedOpen(s, false) && !(Dangling(s, false) && c == '{')
  {
    DanglingConcat(s, [c], false);
    BalanceConcat(s, [c], false);
    NoOpenConcat(s, [c], false);
    assert [c][1..] == [];
  }

  // ----- what the splitter guarantees

  /** Complete, with as many closing as opening braces, and no opening one escaped. */
  predicate Level(s: string) {
    !Dangling(s, false) && Balance(s, false) == 0 && NoEscapedOpen(s, false)
  }

  lemma {:induction false} PartsAreLevel(rest: string, current: string, depth: nat, escaped: bool)
    requires SplitFrom(rest, current, depth, escaped).Ok?
    requires Dangling(current, false) == escaped && Balance(current, false) + depth == 0
    requires NoEscapedOpen(current, false) && NoEscapedOpen(rest, escaped)
    ensures SplitFrom(rest, current, depth, escaped).value != []
    ensures forall part :: part in SplitFrom(rest, current, depth, escaped).value ==> Level(part)
    decreases |rest|
  {
    if rest == [] {
      OneMore(current, '\\');
    } else {
      var c, tail := rest[0], rest[1..];
      OneMore(current, c);
      hide Balance;
      hide Dangling;
      if escaped {
        PartsAreLevel(tail, current + [c], depth, false);
      } else if c == '\\' {
        PartsAreLevel(tail, current + [c], depth, true);
      } else if c == '{' {
        PartsAreLevel(tail, current + [c], depth + 1, false);
      } else if c == '}' {
        PartsAreLevel(tail, current + [c], depth - 1, false);
      } else if c == ',' && depth == 0 {
        NothingIsLevel();
        PartsAreLevel(tail, [], 0, false);
      } else {
        PartsAreLevel(tail, current + [c], depth, false);
      }
    }
  }

  lemma NothingIsLevel()
    ensures Level([])
  {
  }

  /** Nowhere in an accepted text are there more closing than opening braces, and at the end
      there are as many. */
  lemma {:induction false} AcceptedIsBalanced(rest: string, current: string, depth: nat, escaped: bool, i: nat)
    requires SplitFrom(rest, current, depth, escaped).Ok? && i <= |rest|
    ensures Balance(rest[..i], escaped) <= depth && Balance(rest, escaped) == depth
    decreases |rest|
  {
    if rest != [] {
      var c, tail := rest[0], rest[1..];
      var k := if i == 0 then 0 else i - 1;
      assert i > 0 ==> rest[..i][1..] == tail[..k];
      if escaped {
        AcceptedIsBalanced(tail, current + [c], depth, false, k);
      } else if c == '\\' {
        AcceptedIsBalanced(tail, current + [c], depth, true, k);
      } else if c == '{' {
        AcceptedIsBalanced(tail, current + [c], depth + 1, false, k);
      } else if c == '}' {
        AcceptedIsBalanced(tail, current + [c], depth - 1, false, k);
      } else if c == ',' && depth == 0 {
        AcceptedIsBalanced(tail, [], 0, false, k);
      } else {
        AcceptedIsBalanced(tail, current + [c], depth, false, k);
      }
    }
  }

  // ----- one cut

  lemma {:induction false} CloseIs(s: string, depth: nat)
    requires Close(s, depth).Some?
    ensures s[Close(s, depth).value] == '}' && FullBalance(s[..Close(s, depth).value]) == depth as int - 1
  {
    var k := Close(s, depth).value;
    if k > 0 {
      CloseIs(s[1..], if s[0] == '{' then depth + 1 else if s[0] == '}' then depth - 1 else depth);
      assert s[..k][1..] == s[1..][..k - 1];
    }
  }

  lemma CutAt(s: string) returns (start: nat, end: nat)
    requires PiecesOf(s).Cut?
    ensures start < end < |s| && PiecesOf(s) == Cut(s[..start], s[start + 1..end], s[end + 1..])
    ensures s[start] == '{' && '{' !in s[..start] && s[end] == '}' && FullBalance(s[start..][..end - start]) == -1
  {
    start := FirstOpen(s);
    var k := Close(s[start..], 0).value;
    CloseIs(s[start..], 0);
    end := start + k;
    hide FullBalance;
    assert s[start..][0] == '{' && s[start..][k] == '}';
  }

  /** A cut in one piece. */
  lemma CutIsText(s: string)
    requires PiecesOf(s).Cut?
    ensures var c := PiecesOf(s);
            s == c.prefix + ['{'] + c.middle + ['}'] + c.suffix && '{' !in c.prefix && FullBalance(c.middle) == 0
  {
    hide *;
    var start, end := CutAt(s);
    CutSlices(s, start, end);
    OpenCounts(s[start + 1..end]);
  }

  lemma CutSlices(s: string, start: nat, end: nat)
    requires start < end < |s| && s[start] == '{' && s[end] == '}'
    ensures s == s[..start] + ['{'] + s[start + 1..end] + ['}'] + s[end + 1..]
    ensures s[start..][..end - start] == ['{'] + s[start + 1..end] && s[start..][end - start] == s[end]
  {
  }

  lemma OpenCounts(s: string)
    ensures FullBalance(['{'] + s) == FullBalance(s) - 1
  {
    assert (['{'] + s)[1..] == s;
  }

  lemma CutBalance(prefix: string, middle: string, suffix: string)
    requires NoEscapedOpen(prefix + ['{'] + middle + ['}'] + suffix, false)
    ensures !Dangling(prefix, false)
    ensures NoEscapedOpen(prefix, false) && NoEscapedOpen(middle, false) && NoEscapedOpen(suffix, false)
    ensures Balance(prefix + ['{'] + middle + ['}'] + suffix, false)
         == Balance(prefix, false) - 1 + Balance(middle, false) + (if Dangling(middle, false) then 0 else 1)
            + Balance(suffix, false)
  {
    var a, b, c := prefix + ['{'], prefix + ['{'] + middle, prefix + ['{'] + middle + ['}'];
    NoOpenConcat(c, suffix, false);
    OneMore(b, '}');
    NoOpenConcat(a, middle, false);
    OneMore(prefix, '{');
    DanglingConcat(a, middle, false);
    BalanceConcat(c, suffix, false);
    BalanceConcat(a, middle, false);
  }

  lemma JoinedBalance(prefix: string, a: string, suffix: string)
    requires !Dangling(prefix, false) && Level(a) && NoEscapedOpen(prefix, false) && NoEscapedOpen(suffix, false)
    ensures NoEscapedOpen(prefix + a + suffix, false)
    ensures Balance(prefix + a + suffix, false) == Balance(prefix, false) + Balance(suffix, false)
  {
    NoOpenConcat(prefix + a, suffix, false);
    NoOpenConcat(prefix, a, false);
    DanglingConcat(prefix, a, false);
    BalanceConcat(prefix + a, suffix, false);
    BalanceConcat(prefix, a, false);
  }

  // ----- expansion never loses a closing brace

  /** What every alternative of a cut is, between the prefix and the suffix: a text whose
      balance is the whole one's, or one more if the cut ended at an escaped brace. */
  lemma AlternativesAre(s: string)
    requires NoEscapedOpen(s, false) && PiecesOf(s).Cut? && Split(PiecesOf(s).middle).Ok?
    ensures var c := PiecesOf(s);
            && Split(c.middle).value != []
            && forall a :: a in Split(c.middle).value ==>
                 && NoEscapedOpen(c.prefix + a + c.suffix, false)
                 && Balance(c.prefix + a + c.suffix, false)
                      == Balance(s, false) + (if Dangling(c.middle, false) then 1 else 0)
  {
    var c := PiecesOf(s);
    CutIsText(s);
    CutBalance(c.prefix, c.middle, c.suffix);
    NothingIsLevel();
    PartsAreLevel(c.middle, [], 0, false);
    AcceptedIsBalanced(c.middle, [], 0, false, 0);
    hide PiecesOf;
    hide SplitFrom;
    hide Balance;
    hide Dangling;
    hide NoEscapedOpen;
    forall a | a in Split(c.middle).value
      ensures NoEscapedOpen(c.prefix + a + c.suffix, false)
      ensures Balance(c.prefix + a + c.suffix, false)
              == Balance(s, false) + (if Dangling(c.middle, false) then 1 else 0)
    {
      JoinedBalance(c.prefix, a, c.suffix);
    }
  }

  lemma {:induction false} NeverLower(s: string)
    requires NoEscapedOpen(s, false) && Expand(s).Some?
    ensures Expand(s).value != [] && forall o :: o in Expand(s).value ==> Balance(o, false) >= Balance(s, false)
    decreases Opens(s), 1, 0
  {
    hide Balance;
    hide NoEscapedOpen;
    match PiecesOf(s)
    case Plain =>
    case Unclosed =>
    case Cut(prefix, middle, suffix) =>
      var alternatives := Split(middle).value;
      AlternativesAre(s);
      PiecesHaveFewer(prefix, middle, suffix, Opens(s));
      hide PiecesOf;
      hide SplitFrom;
      EachNeverLower(prefix, alternatives, suffix, Opens(s), Balance(s, false));
  }

  lemma {:induction false} EachNeverLower(prefix: string, alternatives: seq<string>, suffix: string, bound: nat,
                                          least: int)
    requires Fewer(prefix, alternatives, suffix, bound) && ExpandEach(prefix, alternatives, suffix, bound).Some?
    requires forall a :: a in alternatives ==>
               NoEscapedOpen(prefix + a + suffix, false) && Balance(prefix + a + suffix, false) >= least
    ensures forall o :: o in ExpandEach(prefix, alternatives, suffix, bound).value ==> Balance(o, false) >= least
    ensures alternatives != [] ==> ExpandEach(prefix, alternatives, suffix, bound).value != []
    decreases bound, 0, |alternatives|
  {
    hide Balance;
    hide NoEscapedOpen;
    hide Expand;
    if alternatives != [] {
      assert alternatives[0] in alternatives && forall a :: a in alternatives[1..] ==> a in alternatives;
      NeverLower(prefix + alternatives[0] + suffix);
      EachNeverLower(prefix, alternatives[1..], suffix, bound, least);
    }
  }

  /** No expansion holds an opening brace. */
  lemma {:induction false} NoOpenIsLeft(s: string)
    requires Expand(s).Some?
    ensures forall o :: o in Expand(s).value ==> '{' !in o
    decreases Opens(s), 1, 0
  {
    match PiecesOf(s)
    case Plain => assert s[..|s|] == s;
    case Unclosed =>
    case Cut(prefix, middle, suffix) =>
      PiecesHaveFewer(prefix, middle, suffix, Opens(s));
      hide PiecesOf;
      hide SplitFrom;
      NoOpenIsLeftEach(prefix, Split(middle).value, suffix, Opens(s));
  }

  lemma {:induction false} NoOpenIsLeftEach(prefix: string, alternatives: seq<string>, suffix: string, bound: nat)
    requires Fewer(prefix, alternatives, suffix, bound) && ExpandEach(prefix, alternatives, suffix, bound).Some?
    ensures forall o :: o in ExpandEach(prefix, alternatives, suffix, bound).value ==> '{' !in o
    decreases bound, 0, |alternatives|
  {
    hide Expand;
    if alternatives != [] {
      assert alternatives[0] in alternatives && forall a :: a in alternatives[1..] ==> a in alternatives;
      NoOpenIsLeft(prefix + alternatives[0] + suffix);
      NoOpenIsLeftEach(prefix, alternatives[1..], suffix, bound);
    }
  }

  // ----- what denoted strings are

  lemma ProductHas(a: seq<string>, b: seq<string>, i: nat, j: nat)
    requires i < |a| && j < |b|
    ensures a[i] + b[j] in Product(a, b)
    decreases a
  {
    if i == 0 {
      assert Affix(a[0], b)[j] == a[0] + b[j];
    } else {
      ProductHas(a[1..], b, i - 1, j);
    }
  }

  lemma {:induction false} ProductFrom(a: seq<string>, b: seq<string>, o: string) returns (x: string, y: string)
    requires o in Product(a, b)
    ensures x in a && y in b && o == x + y
  {
    if o in Affix(a[0], b) {
      var j :| 0 <= j < |b| && Affix(a[0], b)[j] == o;
      x, y := a[0], b[j];
    } else {
      x, y := ProductFrom(a[1..], b, o);
    }
  }

  /** As many unescaped closing as opening braces, and complete. */
  predicate Even(s: string) {
    !Dangling(s, false) && Balance(s, false) == 0
  }

  lemma EvenConcat(a: string, b: string)
    requires Even(a) && Even(b)
    ensures Even(a + b)
  {
    DanglingConcat(a, b, false);
    BalanceConcat(a, b, false);
  }

  lemma AffixEven(s: string, b: seq<string>)
    requires Even(s) && forall o :: o in b ==> Even(o)
    ensures forall o :: o in Affix(s, b) ==> Even(o)
  {
    hide Even;
    forall o | o in Affix(s, b)
      ensures Even(o)
    {
      var i :| 0 <= i < |b| && Affix(s, b)[i] == o;
      assert b[i] in b;
      EvenConcat(s, b[i]);
    }
  }

  lemma ProductEven(a: seq<string>, b: seq<string>)
    requires (forall o :: o in a ==> Even(o)) && forall o :: o in b ==> Even(o)
    ensures forall o :: o in Product(a, b) ==> Even(o)
  {
    hide Even;
    forall o | o in Product(a, b)
      ensures Even(o)
    {
      var x, y := ProductFrom(a, b, o);
      EvenConcat(x, y);
    }
  }

  lemma CharIsEven(c: char)
    ensures Ordinary(c) ==> Even([c])
    ensures Even(['\\', c])
  {
    assert [c][1..] == [] && ['\\', c][1..] == [c];
    assert Dangling([c], true) == Dangling([], false) && Balance([c], true) == Balance([], false);
  }

  lemma {:induction false} DenotedAreEven(p: Pat)
    requires WfPat(p)
    ensures Denote(p) != [] && forall o :: o in Denote(p) ==> Even(o)
    decreases p
  {
    match p
    case End =>
    case Chr(c, rest) =>
      CharIsEven(c);
      hide Even;
      DenotedAreEven(rest);
      AffixEven([c], Denote(rest));
    case Esc(c, rest) =>
      CharIsEven(c);
      hide Even;
      DenotedAreEven(rest);
      AffixEven(['\\', c], Denote(rest));
    case Group(alts, rest) =>
      hide Even;
      DenotedAltsAreEven(alts);
      DenotedAreEven(rest);
      ProductEven(DenoteAlts(alts), Denote(rest));
      ProductHas(DenoteAlts(alts), Denote(rest), 0, 0);
  }

  lemma {:induction false} DenotedAltsAreEven(a: Alts)
    requires WfAlts(a)
    ensures DenoteAlts(a) != [] && forall o :: o in DenoteAlts(a) ==> Even(o)
    decreases a
  {
    hide Even;
    match a
    case One(p) => DenotedAreEven(p);
    case More(p, others) =>
      DenotedAreEven(p);
      DenotedAltsAreEven(others);
  }

  // ----- an escaped opening brace is denoted but never expanded

  predicate OpenFree(strings: seq<string>) {
    forall o :: o in strings ==> '{' !in o
  }

  lemma AffixOpenFree(s: string, b: seq<string>)
    requires OpenFree(Affix(s, b)) && b != []
    ensures OpenFree(b) && '{' !in s
  {
    forall o | o in b
      ensures '{' !in o
    {
      var i :| 0 <= i < |b| && b[i] == o;
      assert Affix(s, b)[i] == s + o;
      assert '{' !in s + o;
    }
    assert Affix(s, b)[0] == s + b[0];
    assert '{' !in s + b[0];
  }

  lemma ProductOpenFree(a: seq<string>, b: seq<string>)
    requires OpenFree(Product(a, b)) && a != [] && b != []
    ensures OpenFree(a) && OpenFree(b)
  {
    forall o | o in a
      ensures '{' !in o
    {
      var i :| 0 <= i < |a| && a[i] == o;
      ProductHas(a, b, i, 0);
      assert '{' !in o + b[0];
    }
    forall o | o in b
      ensures '{' !in o
    {
      var j :| 0 <= j < |b| && b[j] == o;
      ProductHas(a, b, 0, j);
      assert '{' !in a[0] + o;
    }
  }

  lemma PieceFree(front: string, rest: string)
    requires !Dangling(front, false) && NoEscapedOpen(front, false)
    ensures NoEscapedOpen(front + rest, false) <==> NoEscapedOpen(rest, false)
  {
    NoOpenConcat(front, rest, false);
  }

  lemma CharIsFree(c: char)
    ensures c != '\\' ==> !Dangling([c], false) && NoEscapedOpen([c], false)
    ensures !Dangling(['\\', c], false) && (NoEscapedOpen(['\\', c], false) <==> c != '{')
  {
    assert [c][1..] == [] && ['\\', c][1..] == [c];
    assert Dangling([c], true) == Dangling([], false) && NoEscapedOpen([c], true) == (c != '{');
  }

  lemma {:induction false} DenotesEscapedOpens(p: Pat)
    requires WfPat(p) && OpenFree(Denote(p))
    ensures NoEscapedOpen(Show(p), false)
    decreases p, 0
  {
    hide OpenFree;
    DenotedAreEven(p);
    match p
    case End =>
    case Chr(c, rest) =>
      CharIsFree(c);
      DenotedAreEven(rest);
      AffixOpenFree([c], Denote(rest));
      DenotesEscapedOpens(rest);
      PieceFree([c], Show(rest));
    case Esc(c, rest) =>
      CharIsFree(c);
      DenotedAreEven(rest);
      AffixOpenFree(['\\', c], Denote(rest));
      assert ['\\', c][1] == c;
      DenotesEscapedOpens(rest);
      PieceFree(['\\', c], Show(rest));
    case Group(alts, rest) =>
      DenotedAltsAreEven(alts);
      DenotedAreEven(rest);
      ProductOpenFree(DenoteAlts(alts), Denote(rest));
      AltsDenoteEscapedOpens(alts);
      DenotesEscapedOpens(rest);
      GroupFree(alts, Show(rest));
  }

  lemma GroupFree(alts: Alts, rest: string)
    requires WfAlts(alts)
    ensures NoEscapedOpen(['{'] + ShowAlts(alts) + ['}'] + rest, false)
       <==> NoEscapedOpen(ShowAlts(alts), false) && NoEscapedOpen(rest, false)
  {
    var inner := ShowAlts(alts);
    ShownAltsComplete(alts);
    CharIsFree('{');
    CharIsFree('}');
    hide *;
    DanglingPiece(['{'], inner);
    DanglingPiece(['{'] + inner, ['}']);
    PieceFree(['{'], inner);
    NoOpenConcat(['{'] + inner + ['}'], rest, false);
    NoOpenConcat(['{'] + inner, ['}'], false);
  }

  lemma {:induction false} AltsDenoteEscapedOpens(a: Alts)
    requires WfAlts(a) && OpenFree(DenoteAlts(a))
    ensures NoEscapedOpen(ShowAlts(a), false)
    decreases a, 0
  {
    match a
    case One(p) => DenotesEscapedOpens(p);
    case More(p, others) =>
      assert OpenFree(Denote(p)) && OpenFree(DenoteAlts(others));
      hide OpenFree;
      DenotesEscapedOpens(p);
      AltsDenoteEscapedOpens(others);
      ShownIsComplete(p);
      CharIsFree(',');
      hide Dangling;
      hide NoEscapedOpen;
      DanglingPiece(Show(p), [',']);
      NoOpenConcat(Show(p), [','], false);
      NoOpenConcat(Show(p) + [','], ShowAlts(others), false);
  }

  // ----- an expansion to level strings never closed a group at an escaped brace

  lemma {:induction false} FlatIsTame(p: Pat)
    requires WfPat(p) && Flat(p) && NoEscapedOpen(Show(p), false)
    ensures Tame(p, false)
  {
    match p
    case End =>
    case Chr(c, rest) =>
      CharIsFree(c);
      PieceFree([c], Show(rest));
      FlatIsTame(rest);
    case Esc(c, rest) =>
      CharIsFree(c);
      NoOpenConcat(['\\', c], Show(rest), false);
      FlatIsTame(rest);
  }

  lemma {:induction false} NoEscapedCloseIsTame(p: Pat, rest: string)
    requires WfPat(p) && NoEscapedOpen(Show(p) + rest, false) && EscapedCloses(Show(p) + rest, false) == 0
    ensures Tame(p, true) && NoEscapedOpen(rest, false) && EscapedCloses(rest, false) == 0
    decreases p, 0
  {
    match p
    case End => assert [] + rest == rest;
    case Chr(c, tail) =>
      ShownFront([c], p, tail, rest);
      assert ([c] + (Show(tail) + rest))[1..] == Show(tail) + rest;
      NoEscapedCloseIsTame(tail, rest);
    case Esc(c, tail) =>
      var next := Show(tail) + rest;
      ShownFront(['\\', c], p, tail, rest);
      assert (['\\', c] + next)[1..] == [c] + next && ([c] + next)[1..] == next;
      NoEscapedCloseIsTame(tail, rest);
    case Group(alts, tail) =>
      var inner, next := ShowAlts(alts), Show(tail) + rest;
      ShownFront(['{'] + inner + ['}'], p, tail, rest);
      assert (['{'] + inner + ['}'] + next)[1..] == inner + (['}'] + next);
      NoEscapedCloseIsTameAlts(alts, ['}'] + next);
      assert (['}'] + next)[1..] == next;
      NoEscapedCloseIsTame(tail, rest);
  }

  lemma {:induction false} NoEscapedCloseIsTameAlts(a: Alts, rest: string)
    requires WfAlts(a) && NoEscapedOpen(ShowAlts(a) + rest, false) && EscapedCloses(ShowAlts(a) + rest, false) == 0
    ensures TameAlts(a) && NoEscapedOpen(rest, false) && EscapedCloses(rest, false) == 0
    decreases a, 0
  {
    match a
    case One(p) => NoEscapedCloseIsTame(p, rest);
    case More(p, others) =>
      var tail := [','] + (ShowAlts(others) + rest);
      assert ShowAlts(a) + rest == Show(p) + tail;
      NoEscapedCloseIsTame(p, tail);
      assert tail[1..] == ShowAlts(others) + rest;
      NoEscapedCloseIsTameAlts(others, rest);
  }

  /** Two accepted complete texts that are each followed by a closing brace in the same text
      are the same. */
  lemma SameGroup(m: string, x: string, n: string, y: string)
    requires m + ['}'] + x == n + ['}'] + y && Split(m).Ok? && Split(n).Ok? && !Dangling(m, false)
             && !Dangling(n, false)
    ensures m == n && x == y
  {
    if |m| > |n| {
      NotLonger(m, n, x, y);
    } else if |n| > |m| {
      NotLonger(n, m, y, x);
    }
    var s := m + ['}'] + x;
    assert m == s[..|m|] && x == s[|m| + 1..];
    assert n == (n + ['}'] + y)[..|n|] && y == (n + ['}'] + y)[|n| + 1..];
  }

  lemma PrefixIs(m: string, n: string, x: string, y: string)
    requires m + ['}'] + x == n + ['}'] + y && |n| < |m|
    ensures m[..|n| + 1] == n + ['}']
  {
    assert m[..|n| + 1] == (m + ['}'] + x)[..|n| + 1] && (n + ['}'] + y)[..|n| + 1] == n + ['}'];
  }

  lemma NotLonger(m: string, n: string, x: string, y: string)
    requires m + ['}'] + x == n + ['}'] + y && Split(m).Ok? && Split(n).Ok? && !Dangling(n, false)
    ensures |m| <= |n|
  {
    if |m| > |n| {
      PrefixIs(m, n, x, y);
      OneMore(n, '}');
      hide Balance;
      AcceptedIsBalanced(n, [], 0, false, 0);
      AcceptedIsBalanced(m, [], 0, false, |n| + 1);
    }
  }

  /** The group a pattern begins with after its front, and what the expander cut there. */
  lemma CutIsGroup(front: Pat, alts: Alts, rest: Pat)
    requires WfPat(front) && WfAlts(alts) && WfPat(rest) && Flat(front)
    requires NoEscapedOpen(Show(front) + Show(Group(alts, rest)), false)
    requires PiecesOf(Show(front) + Show(Group(alts, rest))).Cut?
    requires var c := PiecesOf(Show(front) + Show(Group(alts, rest)));
             Split(c.middle).Ok? && !Dangling(c.middle, false)
    ensures PiecesOf(Show(front) + Show(Group(alts, rest))) == Cut(Show(front), ShowAlts(alts), Show(rest))
    ensures Tame(front, false) && TameAlts(alts)
  {
    hide *;
    var f, body, tail := Show(front), ShowAlts(alts), Show(rest);
    var s := f + Show(Group(alts, rest));
    var c := PiecesOf(s);
    ShowGroup(alts, rest);
    NoOpenConcat(f, Show(Group(alts, rest)), false);
    FlatIsTame(front);
    FlatShows(front);
    CutIsText(s);
    SplitShown(alts);
    ShownAltsComplete(alts);
    assert s == c.prefix + ['{'] + c.middle + ['}'] + c.suffix;
    CutBalance(c.prefix, c.middle, c.suffix);
    assert s == f + ['{'] + (body + ['}'] + tail) && s == c.prefix + ['{'] + (c.middle + ['}'] + c.suffix);
    SameFront(f, body + ['}'] + tail, c.prefix, c.middle + ['}'] + c.suffix, s);
    SameGroup(c.middle, c.suffix, body, tail);
    BalancedIsTame(alts);
  }

  lemma ShowGroup(alts: Alts, rest: Pat)
    ensures Show(Group(alts, rest)) == ['{'] + ShowAlts(alts) + ['}'] + Show(rest)
  {
  }

  lemma SameFront(f: string, x: string, g: string, y: string, s: string)
    requires s == f + ['{'] + x && s == g + ['{'] + y && '{' !in f && '{' !in g
    ensures f == g && x == y
  {
    FrontIs(f, x, s);
    FrontIs(g, y, s);
  }

  lemma FrontIs(f: string, x: string, s: string)
    requires s == f + ['{'] + x && '{' !in f
    ensures FirstOpen(s) == |f| < |s| && f == s[..|f|] && x == s[|f| + 1..]
  {
    FirstOpenIs(s, |f|);
  }

  lemma BalancedIsTame(alts: Alts)
    requires WfAlts(alts) && NoEscapedOpen(ShowAlts(alts), false) && FullBalance(ShowAlts(alts)) == 0
    ensures TameAlts(alts)
  {
    var body := ShowAlts(alts);
    SplitShown(alts);
    AcceptedIsBalanced(body, [], 0, false, 0);
    FullIs(body, false);
    assert body + [] == body;
    NoEscapedCloseIsTameAlts(alts, []);
  }

  /** A pattern without escaped opening braces that expands to strings without unescaped
      braces left over has no escaped closing brace inside a group. */
  lemma {:induction false} EvenExpansionIsTame(p: Pat)
    requires WfPat(p) && NoEscapedOpen(Show(p), false) && Expand(Show(p)).Some?
    requires forall o :: o in Expand(Show(p)).value ==> Balance(o, false) == 0
    ensures Tame(p, false)
    decreases Opens(Show(p))
  {
    var front, q := Front(p), Back(p);
    FrontBack(p);
    AppendShows(front, q);
    NoOpenConcat(Show(front), Show(q), false);
    FlatIsTame(front);
    FlatShows(front);
    if q.Group? {
      GroupIsTame(p, front, q.alts, q.rest);
    }
  }

  lemma {:induction false} GroupIsTame(p: Pat, front: Pat, alts: Alts, rest: Pat)
    requires WfPat(p) && WfPat(front) && WfAlts(alts) && WfPat(rest) && Flat(front)
    requires Show(p) == Show(front) + Show(Group(alts, rest)) && '{' !in Show(front)
    requires NoEscapedOpen(Show(p), false) && Expand(Show(p)).Some?
    requires forall o :: o in Expand(Show(p)).value ==> Balance(o, false) == 0
    ensures TameAlts(alts) && Tame(rest, false)
    decreases Opens(Show(p)), 0
  {
    hide *;
    var s, body, tail := Show(p), ShowAlts(alts), Show(rest);
    var p0 := AltList(alts)[0];
    ShowGroup(alts, rest);
    assert s == Show(front) + ['{'] + (body + ['}'] + tail);
    ExpandCuts(s, Show(front), body + ['}'] + tail);
    ShownIsBalanced(p);
    CutNotDangling(s);
    CutIsGroup(front, alts, rest);
    FirstAlternative(s, Show(front), alts, rest);
    Between(front, p0, rest);
    EvenExpansionIsTame(Append(front, Append(p0, rest)));
  }

  lemma ShownIsBalanced(p: Pat)
    requires WfPat(p)
    ensures Balance(Show(p), false) == 0
  {
    DenotedAreEven(p);
    SplitShown(One(p));
    AcceptedIsBalanced(Show(p), [], 0, false, 0);
  }

  lemma ExpandCuts(s: string, f: string, t: string)
    requires s == f + ['{'] + t && '{' !in f && Expand(s).Some?
    ensures PiecesOf(s).Cut? && Split(PiecesOf(s).middle).Ok?
    ensures var c := PiecesOf(s);
            && Fewer(c.prefix, Split(c.middle).value, c.suffix, Opens(s))
            && Expand(s) == ExpandEach(c.prefix, Split(c.middle).value, c.suffix, Opens(s))
  {
    FrontIs(f, t, s);
    var c := PiecesOf(s);
    PiecesHaveFewer(c.prefix, c.middle, c.suffix, Opens(s));
  }

  /** If all of an expansion's strings are balanced, the cut did not end at an escaped brace. */
  lemma CutNotDangling(s: string)
    requires NoEscapedOpen(s, false) && PiecesOf(s).Cut? && Split(PiecesOf(s).middle).Ok? && Balance(s, false) == 0
    requires var c := PiecesOf(s);
             && Fewer(c.prefix, Split(c.middle).value, c.suffix, Opens(s))
             && Expand(s) == ExpandEach(c.prefix, Split(c.middle).value, c.suffix, Opens(s))
    requires Expand(s).Some? && forall o :: o in Expand(s).value ==> Balance(o, false) == 0
    ensures !Dangling(PiecesOf(s).middle, false)
  {
    hide *;
    var c := PiecesOf(s);
    AlternativesAre(s);
    EachNeverLower(c.prefix, Split(c.middle).value, c.suffix, Opens(s), 0);
    var o := Expand(s).value[0];
    assert o in Expand(s).value;
    if Dangling(c.middle, false) {
      EachNeverLower(c.prefix, Split(c.middle).value, c.suffix, Opens(s), 1);
    }
  }

  /** The first alternative of a cut expands, to strings that the whole expands to. */
  lemma FirstAlternative(s: string, f: string, alts: Alts, rest: Pat)
    requires PiecesOf(s) == Cut(f, ShowAlts(alts), Show(rest)) && Expand(s).Some? && WfAlts(alts)
    ensures WfPat(AltList(alts)[0])
    ensures var t := f + Show(AltList(alts)[0]) + Show(rest);
            && Opens(t) < Opens(s) && Expand(t).Some? && (NoEscapedOpen(s, false) ==> NoEscapedOpen(t, false))
            && forall o :: o in Expand(t).value ==> o in Expand(s).value
  {
    AltsAreWf(alts);
    assert AltList(alts)[0] in AltList(alts);
    SplitShown(alts);
    var shown := ShowEach(AltList(alts));
    assert shown[0] in shown;
    hide Show;
    hide ShowAlts;
    PiecesHaveFewer(f, ShowAlts(alts), Show(rest), Opens(s));
    if NoEscapedOpen(s, false) {
      AlternativesAre(s);
    }
    hide PiecesOf;
    hide SplitFrom;
  }
}
