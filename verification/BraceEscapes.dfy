/** Which accepted patterns expand to what they mean, and examples of those that do not. */
module BraceEscapes {
  import opened Wrappers
  import opened Braces
  import opened BraceBalance

  // ----- the exact condition

  /** A pattern of the grammar expands to what it denotes exactly if it has no escaped
      opening brace and no escaped closing brace inside an open group. */
  lemma ExpandsToMeaningIff(p: Pat)
    requires WfPat(p)
    ensures Expand(Show(p)) == Some(Denote(p)) <==> Safe(Show(p), 0, false)
  {
    SafeIsTame(p);
    if Tame(p, false) {
      ExpandDenotes(p);
    } else if Expand(Show(p)) == Some(Denote(p)) {
      NoOpenIsLeft(Show(p));
      DenotedAreEven(p);
      hide *;
      MeaningIsTame(p);
    }
  }

  lemma MeaningIsTame(p: Pat)
    requires WfPat(p) && Expand(Show(p)) == Some(Denote(p))
    ensures Tame(p, false)
  {
    NoOpenIsLeft(Show(p));
    DenotedAreEven(p);
    hide Expand;
    hide Balance;
    hide Dangling;
    DenotesEscapedOpens(p);
    EvenExpansionIsTame(p);
  }

  /** For every accepted list: its parts are those of a parse, and each expands to what it
      means exactly if it is safe. */
  lemma ExpansionExact(s: string) returns (a: Alts)
    requires Split(s).Ok?
    ensures WfAlts(a) && Completed(s) == ShowAlts(a) && Split(s) == Ok(ShowEach(AltList(a)))
    ensures forall i :: 0 <= i < |AltList(a)| ==>
              (Expand(Split(s).value[i]) == Some(Denote(AltList(a)[i])) <==> Safe(Split(s).value[i], 0, false))
  {
    SplitCompleted(s);
    a := TopAlts(Completed(s));
    SplitShown(a);
    AltsAreWf(a);
    forall i | 0 <= i < |AltList(a)|
      ensures Expand(Split(s).value[i]) == Some(Denote(AltList(a)[i])) <==> Safe(Split(s).value[i], 0, false)
    {
      assert AltList(a)[i] in AltList(a);
      ExpandsToMeaningIff(AltList(a)[i]);
    }
  }

  // ----- lists without backslashes

  predicate BraceFree(s: string) {
    '{' !in s && '}' !in s && '\\' !in s
  }

  lemma AffixBraceFree(s: string, b: seq<string>)
    requires BraceFree(s) && forall t :: t in b ==> BraceFree(t)
    ensures forall t :: t in Affix(s, b) ==> BraceFree(t)
  {
    forall t | t in Affix(s, b)
      ensures BraceFree(t)
    {
      var i :| 0 <= i < |b| && t == s + b[i];
      assert b[i] in b;
    }
  }

  lemma {:induction false} ProductBraceFree(a: seq<string>, b: seq<string>)
    requires (forall s :: s in a ==> BraceFree(s)) && (forall s :: s in b ==> BraceFree(s))
    ensures forall s :: s in Product(a, b) ==> BraceFree(s)
  {
    if a != [] {
      assert forall s :: s in a[1..] ==> s in a;
      ProductBraceFree(a[1..], b);
      assert a[0] in a;
      AffixBraceFree(a[0], b);
    }
  }

  lemma {:induction false} DenotesOrdinary(p: Pat)
    requires WfPat(p) && '\\' !in Show(p)
    ensures forall s :: s in Denote(p) ==> BraceFree(s)
    decreases p
  {
    match p
    case End =>
    case Chr(c, rest) =>
      assert forall x :: x in Show(rest) ==> x in Show(p);
      DenotesOrdinary(rest);
      AffixBraceFree([c], Denote(rest));
    case Esc(c, rest) =>
    case Group(alts, rest) =>
      assert forall x :: x in Show(rest) || x in ShowAlts(alts) ==> x in Show(p);
      DenotesOrdinary(rest);
      AltsOrdinary(alts);
      ProductBraceFree(DenoteAlts(alts), Denote(rest));
  }

  lemma {:induction false} AltsOrdinary(a: Alts)
    requires WfAlts(a) && '\\' !in ShowAlts(a)
    ensures forall s :: s in DenoteAlts(a) ==> BraceFree(s)
    decreases a
  {
    match a
    case One(p) => DenotesOrdinary(p);
    case More(p, others) =>
      assert forall x :: x in Show(p) || x in ShowAlts(others) ==> x in ShowAlts(a);
      DenotesOrdinary(p);
      AltsOrdinary(others);
  }

  lemma {:induction false} NoBackslashIsSafe(s: string, depth: nat)
    requires '\\' !in s
    ensures Safe(s, depth, false)
  {
    if s != [] {
      assert s[0] != '\\' && forall x :: x in s[1..] ==> x in s;
      NoBackslashIsSafe(
        s[1..], if s[0] == '{' then depth + 1 else if s[0] == '}' && depth > 0 then depth - 1 else depth);
    }
  }

  lemma {:induction false} PartsShowIn(a: Alts, p: Pat)
    requires p in AltList(a)
    ensures forall x :: x in Show(p) ==> x in ShowAlts(a)
  {
    match a
    case One(_) =>
    case More(q, others) =>
      if p != q {
        PartsShowIn(others, p);
      }
  }

  /** Every part of an accepted backslash-free list expands, to the ordered strings its
      grammar denotes, none of which holds a brace. */
  lemma ExpansionPreservesMeaning(s: string) returns (a: Alts)
    requires '\\' !in s && Split(s).Ok?
    ensures WfAlts(a) && s == ShowAlts(a)
    ensures Split(s) == Ok(ShowEach(AltList(a)))
    ensures forall i :: 0 <= i < |AltList(a)| ==>
              && Expand(Split(s).value[i]) == Some(Denote(AltList(a)[i]))
              && forall e :: e in Denote(AltList(a)[i]) ==> BraceFree(e)
  {
    NeverDangles(s);
    a := ExpansionExact(s);
    AltsAreWf(a);
    forall i | 0 <= i < |AltList(a)|
      ensures Expand(Split(s).value[i]) == Some(Denote(AltList(a)[i]))
      ensures forall e :: e in Denote(AltList(a)[i]) ==> BraceFree(e)
    {
      var p := AltList(a)[i];
      PartsShowIn(a, p);
      NoBackslashIsSafe(Show(p), 0);
      DenotesOrdinary(p);
    }
  }

  lemma {:induction false} NeverDangles(s: string)
    requires '\\' !in s
    ensures !Dangling(s, false)
  {
    if s != [] {
      assert s[0] != '\\' && forall x :: x in s[1..] ==> x in s;
      NeverDangles(s[1..]);
    }
  }

  lemma OneShown(p: Pat)
    requires WfPat(p)
    ensures Split(Show(p)) == Ok([Show(p)])
  {
    SplitShown(One(p));
    assert AltList(One(p)) == [p] && ShowEach([p]) == [Show(p)];
  }

  /** An escaped opening brace is accepted and never closed. */
  lemma EscapedOpenFails()
    ensures Split("\\{") == Ok(["\\{"]) && Expand("\\{") == None
  {
    OneShown(Esc('{', End));
    assert Show(Esc('{', End)) == "\\{";
    FirstOpenIs("\\{", 1);
    assert "\\{"[1..] == "{" && "{"[1..] == [];
    assert Close("{", 0) == Shift(Close([], 1));
  }

  lemma CutsEarly()
    ensures PiecesOf("{\\}}") == Cut([], "\\", "}")
  {
    var s := "{\\}}";
    assert s[1..] == "\\}}" && "\\}}"[1..] == "}}";
    assert Close("}}", 1) == Some(0) && Close("\\}}", 1) == Some(1);
    assert Close(s, 0) == Shift(Close("\\}}", 1));
    assert ['{'] + "\\" + ['}'] + "}" == s && [] + s == s;
    CutIs([], "\\", "}");
  }

  lemma BackslashDoubles()
    ensures Split("\\") == Ok(["\\\\"])
  {
    assert SplitFrom([], "\\", 0, true) == Ok(["\\" + ['\\']]);
    assert "\\"[1..] == [] && [] + ['\\'] == "\\" && "\\" + ['\\'] == "\\\\";
    assert SplitFrom("\\", [], 0, false) == SplitFrom([], "\\", 0, true);
  }

  lemma ExpandsOne(s: string, prefix: string, middle: string, suffix: string, part: string)
    requires PiecesOf(s) == Cut(prefix, middle, suffix) && Split(middle) == Ok([part])
    requires '{' !in prefix + part + suffix
    ensures Expand(s) == Some([prefix + part + suffix])
  {
    var t := prefix + part + suffix;
    PiecesHaveFewer(prefix, middle, suffix, Opens(s));
    NoGroupIsPlain(t);
    hide PiecesOf;
    hide SplitFrom;
    assert [part][1..] == [] && [t] + [] == [t];
    assert ExpandEach(prefix, [part], suffix, Opens(s)) == Some([t]);
  }

  lemma GroupOfOneMeans(t: string, p: Pat)
    requires Denote(p) == [t]
    ensures Denote(Group(One(p), End)) == [t]
  {
    assert Affix(t, [[]]) == [t + []] && t + [] == t;
    assert Product([t], [[]]) == Affix(t, [[]]) + Product([], [[]]);
  }

  /** An escaped closing brace ends the group early: its backslash is doubled, and the real
      end of the group is left in the string. */
  lemma EscapedCloseMisleads()
    ensures Show(Group(One(Esc('}', End)), End)) == "{\\}}" && Denote(Group(One(Esc('}', End)), End)) == ["\\}"]
    ensures Split("{\\}}") == Ok(["{\\}}"]) && Expand("{\\}}") == Some(["\\\\}"])
  {
    var e := Esc('}', End);
    var p := Group(One(e), End);
    assert Show(p) == "{\\}}";
    assert Denote(e) == ["\\}"] by {
      assert Affix("\\}", [[]]) == ["\\}" + []] && "\\}" + [] == "\\}";
    }
    hide PiecesOf;
    hide SplitFrom;
    OneShown(p);
    GroupOfOneMeans("\\}", e);
    CutsEarly();
    BackslashDoubles();
    assert [] + "\\\\" + "}" == "\\\\}";
    ExpandsOne("{\\}}", [], "\\", "}", "\\\\");
  }
}
