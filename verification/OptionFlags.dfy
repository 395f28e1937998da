/** The merges of plain texts and of flag lists, and what a removal takes out of any text. */
module OptionFlags {
  import opened Wrappers
  import opened CommaItems
  import opened OptionMerge
  import opened OptionSearch
  import opened OptionTheorems

  // ----- where a value is found

  /** The value is in the text at this offset; between separators, if the kind has them. */
  predicate There(kind: ListKind, s: string, x: string, i: nat)
    requires i < |s|
  {
    if CommaSeparated(kind) then DupAt(s, x, i) else Occurs(x, s, i)
  }

  lemma {:induction false} FindTextFrom(s: string, x: string, i: nat, b: nat)
    requires i <= |s|
    ensures match FindDup(s, x, false, i, b)
            case None => forall j :: i <= j < |s| ==> !Occurs(x, s, j)
            case Some(at) => i <= at && Occurs(x, s, at) && forall j :: i <= j < at ==> !Occurs(x, s, j)
    decreases |s| - i
  {
    if i < |s| && !Occurs(x, s, i) {
      FindTextFrom(s, x, i + 1, Backslashes(s, i, b));
    }
  }

  /** The text is l, the value and r, and the value is nowhere before. */
  predicate FirstIn(kind: ListKind, s: string, x: string, l: string, r: string) {
    && s == l + x + r && |l| < |s| && There(kind, s, x, |l|)
    && forall j :: 0 <= j < |l| ==> !There(kind, s, x, j)
  }

  predicate Nowhere(kind: ListKind, s: string, x: string) {
    forall j :: 0 <= j < |s| ==> !There(kind, s, x, j)
  }

  lemma SearchIs(kind: ListKind, s: string, x: string)
    ensures match FindDup(s, x, CommaSeparated(kind), 0, 0)
            case None => Nowhere(kind, s, x)
            case Some(at) =>
              at + |x| <= |s| && There(kind, s, x, at) && forall j :: 0 <= j < at ==> !There(kind, s, x, j)
  {
    FindDupFirst(s, x);
    FindTextFrom(s, x, 0, 0);
    hide FindDup;
    hide DupAt;
    hide Occurs;
  }

  lemma FoundFirst(kind: ListKind, s: string, x: string, l: string, r: string)
    requires FirstIn(kind, s, x, l, r)
    ensures FindDup(s, x, CommaSeparated(kind), 0, 0) == Some(|l|)
  {
    SearchIs(kind, s, x);
    hide FindDup;
    hide There;
  }

  lemma FoundNowhere(kind: ListKind, s: string, x: string)
    requires Nowhere(kind, s, x)
    ensures FindDup(s, x, CommaSeparated(kind), 0, 0) == None
  {
    SearchIs(kind, s, x);
    hide FindDup;
    hide There;
  }

  lemma OccursIs(s: string, x: string, i: nat)
    requires Occurs(x, s, i)
    ensures s == s[..i] + x + s[i + |x|..]
  {
    assert s[i..i + |x|] == x;
  }

  /** Every text has such a place or none. */
  lemma FirstOrNowhere(kind: ListKind, s: string, x: string)
    ensures Nowhere(kind, s, x) || exists l, r :: FirstIn(kind, s, x, l, r)
  {
    SearchIs(kind, s, x);
    var found := FindDup(s, x, CommaSeparated(kind), 0, 0);
    if found.Some? {
      OccursIs(s, x, found.value);
      hide FindDup;
      hide There;
      assert FirstIn(kind, s, x, s[..found.value], s[found.value + |x|..]);
    }
  }

  // ----- removals

  /** What is left of a text around a value taken out: in a list, one comma goes with it. */
  function Around(kind: ListKind, l: string, r: string): string {
    if !CommaSeparated(kind) then l + r
    else if l != "" then l[..|l| - 1] + r
    else if r != "" then r[1..]
    else ""
  }

  function Flagged(kind: ListKind, s: string): string {
    if FlagList(kind) then KeepLast(s, CommaSeparated(kind)) else s
  }

  lemma RemoveValueIs(kind: ListKind, s: string, x: string, l: string, r: string)
    requires FirstIn(kind, s, x, l, r)
    ensures RemoveValue(kind, s, |l|, |x|) == Around(kind, l, r)
  {
    hide Run;
    assert s[|l| + |x|..] == r;
    if CommaSeparated(kind) {
      if l != "" {
        assert s[..|l| - 1] == l[..|l| - 1];
      } else if r != "" {
        assert s[|x|] == r[0] && s[|x| + 1..] == r[1..];
      }
    } else {
      assert s[..|l|] == l;
    }
  }

  /** A removal takes out the first place where the value is, and nothing if it is nowhere;
      what is left of a flag list is deduplicated. */
  lemma RemovalTakesTheFirst(kind: ListKind, nodup: bool, origval: string, newval: string)
    requires !GoesKeyed(kind, newval)
    ensures var merged := Merge(kind, nodup, origval, newval, Remove);
            && (forall l, r :: FirstIn(kind, origval, newval, l, r) ==> merged == Flagged(kind, Around(kind, l, r)))
            && (Nowhere(kind, origval, newval) ==> merged == Flagged(kind, origval))
  {
    forall l, r | FirstIn(kind, origval, newval, l, r)
      ensures Merge(kind, nodup, origval, newval, Remove) == Flagged(kind, Around(kind, l, r))
    {
      FoundFirst(kind, origval, newval, l, r);
      RemoveValueIs(kind, origval, newval, l, r);
    }
    if Nowhere(kind, origval, newval) {
      FoundNowhere(kind, origval, newval);
    }
    hide FindDup;
    hide FirstIn;
    hide Nowhere;
    hide MergeEach;
  }

  // ----- plain texts

  /** A plain text is appended to, prepended to, or cut where the value is first. */
  lemma PlainTexts(nodup: bool, origval: string, newval: string, op: SetOp)
    ensures var merged := Merge(Plain, nodup, origval, newval, op);
            && (op != Remove && nodup && !Nowhere(Plain, origval, newval) ==> merged == origval)
            && (op == Append && !(nodup && !Nowhere(Plain, origval, newval)) ==> merged == origval + newval)
            && (op == Prepend && !(nodup && !Nowhere(Plain, origval, newval)) ==> merged == newval + origval)
            && (op == Remove ==> forall l, r :: FirstIn(Plain, origval, newval, l, r) ==> merged == l + r)
            && (op == Remove && Nowhere(Plain, origval, newval) ==> merged == origval)
  {
    SearchIs(Plain, origval, newval);
    if op == Remove {
      RemovalTakesTheFirst(Plain, nodup, origval, newval);
    }
    hide FindDup;
    hide FirstIn;
    hide MergeEach;
  }

  // ----- flag lists

  /** Here the flag occurs for the last time; commas that separate flags all stay. */
  predicate Stays(s: string, commas: bool, k: nat)
    requires k < |s|
  {
    (commas && s[k] == ',') || s[k] !in s[k + 1..]
  }

  /** The text t is s at the positions in `at`, which are all that stay. */
  predicate Picks(s: string, commas: bool, at: seq<nat>, t: string) {
    && |at| == |t|
    && (forall i :: 0 <= i < |at| ==> at[i] < |s| && s[at[i]] == t[i])
    && (forall i, j :: 0 <= i < j < |at| ==> at[i] < at[j])
    && (forall k :: 0 <= k < |s| ==> (k in at <==> Stays(s, commas, k)))
  }

  function Shifted(at: seq<nat>): seq<nat> {
    seq(|at|, i requires 0 <= i < |at| => at[i] + 1)
  }

  lemma StaysLater(s: string, commas: bool, k: nat)
    requires 0 < k < |s|
    ensures Stays(s, commas, k) <==> Stays(s[1..], commas, k - 1)
  {
    assert s[1..][k - 1..][1..] == s[k + 1..] && s[1..][k - 1] == s[k];
  }

  lemma PicksNext(s: string, commas: bool, at: seq<nat>, t: string)
    requires s != "" && Picks(s[1..], commas, at, t)
    ensures Stays(s, commas, 0) ==> Picks(s, commas, [0] + Shifted(at), [s[0]] + t)
    ensures !Stays(s, commas, 0) ==> Picks(s, commas, Shifted(at), t)
  {
    var later := Shifted(at);
    forall k | 0 < k < |s|
      ensures k in later <==> Stays(s, commas, k)
    {
      StaysLater(s, commas, k);
      if k - 1 in at {
        var i :| 0 <= i < |at| && at[i] == k - 1;
        assert later[i] == k;
      }
    }
    hide Stays;
  }

  lemma KeepLastNext(s: string, commas: bool)
    requires s != ""
    ensures KeepLast(s, commas)
         == if Stays(s, commas, 0) then [s[0]] + KeepLast(s[1..], commas) else KeepLast(s[1..], commas)
  {
  }

  /** Deduplication keeps exactly the last occurrences, in order. */
  lemma {:induction false} KeepLastPicks(s: string, commas: bool) returns (at: seq<nat>)
    ensures Picks(s, commas, at, KeepLast(s, commas))
  {
    if s == "" {
      return [];
    }
    at := KeepLastPicks(s[1..], commas);
    hide *;
    PicksNext(s, commas, at, KeepLast(s[1..], commas));
    KeepLastNext(s, commas);
    at := if Stays(s, commas, 0) then [0] + Shifted(at) else Shifted(at);
  }

  lemma {:induction false} KeepLastOfNoRepeats(s: string, commas: bool)
    requires NoRepeats(s, commas)
    ensures KeepLast(s, commas) == s
  {
    if s != "" {
      KeepLastOfNoRepeats(s[1..], commas);
    }
  }

  /** The value and the new flags before they are deduplicated. */
  function Joined(kind: ListKind, origval: string, newval: string, op: SetOp): string {
    var comma := if CommaSeparated(kind) && origval != "" && newval != "" then "," else "";
    if op == Append then origval + comma + newval else newval + comma + origval
  }

  /** What a merge of flags gives: the texts put together, or cut, and of that the last
      occurrences, in order. */
  lemma FlagsMerged(kind: ListKind, nodup: bool, origval: string, newval: string, op: SetOp)
      returns (joined: string, at: seq<nat>)
    requires FlagList(kind)
    ensures Picks(joined, kind.FlagsComma?, at, Merge(kind, nodup, origval, newval, op))
    ensures op != Remove && !(nodup && !Nowhere(kind, origval, newval)) ==> joined == Joined(kind, origval, newval, op)
    ensures op != Remove && nodup && !Nowhere(kind, origval, newval) ==> joined == origval
    ensures op == Remove ==> forall l, r :: FirstIn(kind, origval, newval, l, r) ==> joined == Around(kind, l, r)
    ensures op == Remove && Nowhere(kind, origval, newval) ==> joined == origval
  {
    SearchIs(kind, origval, newval);
    var found := FindDup(origval, newval, CommaSeparated(kind), 0, 0);
    joined := if op == Remove then RemoveValue(kind, origval, if found.Some? then found.value else |origval|, |newval|)
      else if nodup && found.Some? then origval
      else Joined(kind, origval, newval, op);
    assert Merge(kind, nodup, origval, newval, op) == KeepLast(joined, CommaSeparated(kind));
    at := KeepLastPicks(joined, CommaSeparated(kind));
    hide FindDup;
    hide KeepLast;
    hide Picks;
    forall l, r | op == Remove && FirstIn(kind, origval, newval, l, r)
      ensures joined == Around(kind, l, r)
    {
      FoundFirst(kind, origval, newval, l, r);
      RemoveValueIs(kind, origval, newval, l, r);
    }
    hide FirstIn;
  }

  lemma CutNoRepeats(a: string, m: string, b: string, commas: bool)
    requires NoRepeats(a + m + b, commas)
    ensures NoRepeats(a + b, commas)
    ensures forall c :: c in m && !(commas && c == ',') ==> c !in a + b
  {
    var s, t := a + m + b, a + b;
    assert forall i :: 0 <= i < |a| ==> t[i] == s[i];
    assert forall i :: |a| <= i < |t| ==> t[i] == s[i + |m|];
    forall c | c in m && !(commas && c == ',')
      ensures c !in t
    {
      var k :| 0 <= k < |m| && m[k] == c;
      assert s[|a| + k] == c;
      forall i | 0 <= i < |t|
        ensures t[i] != c
      {
        assert t[i] == s[if i < |a| then i else i + |m|];
      }
    }
  }

  /** What is taken out around a value. */
  lemma AroundCuts(kind: ListKind, x: string, l: string, r: string) returns (a: string, m: string, b: string)
    ensures l + x + r == a + m + b && Around(kind, l, r) == a + b
    ensures forall c :: c in x ==> c in m
  {
    if !CommaSeparated(kind) {
      a, m, b := l, x, r;
    } else if l != "" {
      a, m, b := l[..|l| - 1], [l[|l| - 1]] + x, r;
      assert l == a + [l[|l| - 1]];
    } else if r != "" {
      a, m, b := "", x + [r[0]], r[1..];
      assert r == [r[0]] + b;
    } else {
      a, m, b := "", x, "";
    }
  }

  /** Taking a value out of flags without repeats leaves the others as they were. */
  lemma RemovedFlags(kind: ListKind, nodup: bool, origval: string, newval: string, l: string, r: string)
    requires FlagList(kind) && NoRepeats(origval, kind.FlagsComma?) && FirstIn(kind, origval, newval, l, r)
    ensures Merge(kind, nodup, origval, newval, Remove) == Around(kind, l, r)
    ensures forall c :: c in newval && (c != ',' || kind.Flags?) ==> c !in Around(kind, l, r)
  {
    RemovalTakesTheFirst(kind, nodup, origval, newval);
    var a, m, b := AroundCuts(kind, newval, l, r);
    CutNoRepeats(a, m, b, kind.FlagsComma?);
    KeepLastOfNoRepeats(a + b, kind.FlagsComma?);
    hide Merge;
    hide KeepLast;
    hide There;
    hide NoRepeats;
    hide Around;
  }

  /** One flag of a value without repeats and without separators: it goes, the others stay. */
  lemma RemovedFlag(nodup: bool, l: string, c: char, r: string)
    requires NoRepeats(l + [c] + r, false)
    ensures Merge(Flags, nodup, l + [c] + r, [c], Remove) == l + r && c !in l + r
  {
    var s := l + [c] + r;
    assert s[|l|] == c && forall j :: 0 <= j < |l| ==> s[j] == l[j];
    assert c in [c];
    assert FirstIn(Flags, s, [c], l, r) by {
      forall j | 0 <= j < |l|
        ensures !There(Flags, s, [c], j)
      {
        assert s[j + 0] != [c][0];
      }
    }
    RemovedFlags(Flags, nodup, s, [c], l, r);
    hide Merge;
  }

  lemma AbsentFlag(s: string, c: char)
    requires c !in s
    ensures Nowhere(Flags, s, [c])
  {
    forall j | 0 <= j < |s|
      ensures !There(Flags, s, [c], j)
    {
      assert s[j + 0] != [c][0];
    }
  }

  lemma AddedFlag(nodup: bool, origval: string, c: char, op: SetOp)
    requires NoRepeats(origval, false) && c !in origval && op != Remove
    ensures Merge(Flags, nodup, origval, [c], op) == if op == Append then origval + [c] else [c] + origval
    ensures NoRepeats(Merge(Flags, nodup, origval, [c], op), false)
  {
    AbsentFlag(origval, c);
    FoundNowhere(Flags, origval, [c]);
    var merged := if op == Append then origval + [c] else [c] + origval;
    assert origval + "" + [c] == origval + [c] && [c] + "" + origval == [c] + origval;
    assert NoRepeats(merged, false);
    hide NoRepeats;
    KeepLastOfNoRepeats(merged, false);
    hide FindDup;
    hide KeepLast;
  }

  lemma RemovedAbsentFlag(nodup: bool, origval: string, c: char)
    requires NoRepeats(origval, false) && c !in origval
    ensures Merge(Flags, nodup, origval, [c], Remove) == origval
  {
    AbsentFlag(origval, c);
    KeepLastOfNoRepeats(origval, false);
    RemovalTakesTheFirst(Flags, nodup, origval, [c]);
    hide NoRepeats;
    hide KeepLast;
    hide Nowhere;
    hide Merge;
  }

  /** Adding a flag and removing it restores a value without repeats that has not the flag;
      removing it from such a value changes nothing. */
  lemma AddedFlagIsRemoved(nodup: bool, origval: string, c: char, op: SetOp)
    requires NoRepeats(origval, false) && c !in origval && op != Remove
    ensures Merge(Flags, nodup, Merge(Flags, nodup, origval, [c], op), [c], Remove) == origval
    ensures Merge(Flags, nodup, origval, [c], Remove) == origval
  {
    hide *;
    AddedFlag(nodup, origval, c, op);
    RemovedAbsentFlag(nodup, origval, c);
    var l, r := if op == Append then origval else "", if op == Append then "" else origval;
    assert l + [c] + r == (if op == Append then origval + [c] else [c] + origval) && l + r == origval;
    RemovedFlag(nodup, l, c, r);
  }
}
